/** `score`: Brier scores of a prediction register and Murphy's decomposition over distinct forecasts. */
module Scoring {
  import opened Seqs

  datatype Prediction = Prediction(id: string, probability: real)

  /** A resolved prediction: its clipped probability and what happened. */
  datatype Forecast = Forecast(p: real, outcome: bool)
  {
    function O(): real { if outcome then 1.0 else 0.0 }
    function Error(): real { (p - O()) * (p - O()) }
  }

  /** The outcomes of all forecasts made with one value. */
  datatype Group = Group(p: real, outcomes: seq<bool>)

  const CLIP: real := 0.01

  function Clip(p: real): (r: real)
    ensures CLIP <= r <= 1.0 - CLIP
  {
    var q := if p < CLIP then CLIP else p;
    if q < 1.0 - CLIP then q else 1.0 - CLIP
  }

  // ---------------------------------------------------------------- specification

  function Hits(outcomes: seq<bool>): nat {
    if outcomes == [] then 0
    else Hits(outcomes[..|outcomes| - 1]) + (if outcomes[|outcomes| - 1] then 1 else 0)
  }

  function Outcomes(fs: seq<Forecast>): seq<bool> {
    seq(|fs|, i requires 0 <= i < |fs| => fs[i].outcome)
  }

  function SquaredErrors(fs: seq<Forecast>): real {
    if fs == [] then 0.0 else SquaredErrors(fs[..|fs| - 1]) + fs[|fs| - 1].Error()
  }

  function Per(total: real, n: real): real
    requires n > 0.0
  {
    total / n
  }

  function Variance(base: real): real { base * (1.0 - base) }

  /** The mean over forecasts of 2 * (p - outcome)^2. */
  function MeanBrier(fs: seq<Forecast>): real
    requires fs != []
  {
    Per(2.0 * SquaredErrors(fs), |fs| as real)
  }

  /** Insertion into a dict that keeps first-seen order: `groups.setdefault(p, []).append(outcome)`. */
  function AddTo(groups: seq<Group>, f: Forecast): (r: seq<Group>)
    ensures r != []
  {
    if groups == [] then [Group(f.p, [f.outcome])]
    else if groups[0].p == f.p then [Group(f.p, groups[0].outcomes + [f.outcome])] + groups[1..]
    else [groups[0]] + AddTo(groups[1..], f)
  }

  function Groups(fs: seq<Forecast>): seq<Group> {
    if fs == [] then [] else AddTo(Groups(fs[..|fs| - 1]), fs[|fs| - 1])
  }

  function Rate(outcomes: seq<bool>): real
    requires outcomes != []
  {
    Per(Hits(outcomes) as real, |outcomes| as real)
  }

  function Square(x: real): real { x * x }

  /** `len(g) * (rate(g) - centre) ** 2`. */
  function Spread(outcomes: seq<bool>, centre: real): real
    requires outcomes != []
  {
    |outcomes| as real * Square(centre - Rate(outcomes))
  }

  ghost predicate AllNonempty(groups: seq<Group>) {
    forall i :: 0 <= i < |groups| ==> groups[i].outcomes != []
  }

  function RelSum(groups: seq<Group>): real
    requires AllNonempty(groups)
  {
    if groups == [] then 0.0
    else Spread(groups[0].outcomes, groups[0].p) + RelSum(groups[1..])
  }

  function ResSum(groups: seq<Group>, base: real): real
    requires AllNonempty(groups)
  {
    if groups == [] then 0.0
    else Spread(groups[0].outcomes, base) + ResSum(groups[1..], base)
  }

  // ---------------------------------------------------------------- grouping is a partition

  /** The outcomes of the forecasts with value `p`, in order. */
  function At(fs: seq<Forecast>, p: real): seq<bool> {
    if fs == [] then []
    else At(fs[..|fs| - 1], p) + (if fs[|fs| - 1].p == p then [fs[|fs| - 1].outcome] else [])
  }

  function Lookup(groups: seq<Group>, p: real): seq<bool> {
    if groups == [] then []
    else if groups[0].p == p then groups[0].outcomes
    else Lookup(groups[1..], p)
  }

  ghost predicate DistinctValues(groups: seq<Group>) {
    forall i, j :: 0 <= i < j < |groups| ==> groups[i].p != groups[j].p
  }

  lemma {:induction false} AddToValues(groups: seq<Group>, f: Forecast)
    requires DistinctValues(groups) && AllNonempty(groups)
    ensures var r := AddTo(groups, f);
            && DistinctValues(r) && AllNonempty(r)
            && (forall i :: 0 <= i < |r| ==> r[i].p == f.p || exists j :: 0 <= j < |groups| && groups[j].p == r[i].p)
  {
    if groups != [] && groups[0].p != f.p {
      var rest := AddTo(groups[1..], f);
      AddToValues(groups[1..], f);
      forall i | 0 <= i < |rest| ensures rest[i].p == f.p || exists j :: 1 <= j < |groups| && groups[j].p == rest[i].p {
        if rest[i].p != f.p {
          var j :| 0 <= j < |groups[1..]| && groups[1..][j].p == rest[i].p;
          assert groups[j + 1].p == rest[i].p;
        }
      }
      assert AddTo(groups, f)[1..] == rest;
    }
  }

  lemma {:induction false} AddToLookup(groups: seq<Group>, f: Forecast, p: real)
    ensures Lookup(AddTo(groups, f), p) == Lookup(groups, p) + (if f.p == p then [f.outcome] else [])
  {
    if groups != [] && groups[0].p != f.p {
      AddToLookup(groups[1..], f, p);
      assert AddTo(groups, f)[1..] == AddTo(groups[1..], f);
    }
  }

  lemma AddToKeeps(groups: seq<Group>, f: Forecast, p: real)
    requires DistinctValues(groups) && AllNonempty(groups)
    ensures var r := AddTo(groups, f);
            && DistinctValues(r) && AllNonempty(r)
            && Lookup(r, p) == Lookup(groups, p) + (if f.p == p then [f.outcome] else [])
  {
    AddToValues(groups, f);
    AddToLookup(groups, f, p);
  }

  /** Grouping is by distinct value, and each group holds exactly the outcomes forecast with its value. */
  lemma {:induction false} GroupsPartition(fs: seq<Forecast>, p: real)
    ensures DistinctValues(Groups(fs)) && AllNonempty(Groups(fs))
    ensures Lookup(Groups(fs), p) == At(fs, p)
  {
    if fs != [] {
      GroupsPartition(fs[..|fs| - 1], p);
      AddToKeeps(Groups(fs[..|fs| - 1]), fs[|fs| - 1], p);
    }
  }

  // ---------------------------------------------------------------- Murphy's identity

  function GroupError(p: real, outcomes: seq<bool>): real {
    if outcomes == [] then 0.0
    else
      var n := |outcomes| - 1;
      GroupError(p, outcomes[..n]) + Forecast(p, outcomes[n]).Error()
  }

  function SizeSum(groups: seq<Group>): nat {
    if groups == [] then 0 else |groups[0].outcomes| + SizeSum(groups[1..])
  }

  function HitSum(groups: seq<Group>): nat {
    if groups == [] then 0 else Hits(groups[0].outcomes) + HitSum(groups[1..])
  }

  function ErrorSum(groups: seq<Group>): real {
    if groups == [] then 0.0 else GroupError(groups[0].p, groups[0].outcomes) + ErrorSum(groups[1..])
  }

  /** A group's squared errors in terms of its size and hits. */
  lemma {:induction false} GroupErrorClosed(p: real, outcomes: seq<bool>)
    ensures GroupError(p, outcomes)
         == |outcomes| as real * Square(p) - 2.0 * p * Hits(outcomes) as real + Hits(outcomes) as real
  {
    if outcomes != [] {
      var n := |outcomes| - 1;
      GroupErrorClosed(p, outcomes[..n]);
      OneError(p, outcomes[n]);
      var h := Hits(outcomes[..n]) as real;
      var x := if outcomes[n] then 1.0 else 0.0;
      assert Hits(outcomes) as real == h + x;
      Distribute(n as real, 1.0, Square(p));
      Distribute(h, x, 2.0 * p);
    }
  }

  lemma Distribute(a: real, b: real, c: real)
    ensures c * (a + b) == c * a + c * b && (a + b) * c == a * c + b * c
  {
  }

  lemma OneError(p: real, outcome: bool)
    ensures Forecast(p, outcome).Error() == Square(p) + (if outcome then 1.0 - 2.0 * p else 0.0)
  {
  }

  lemma SpreadOpen(n: real, k: real, c: real)
    requires n > 0.0
    ensures n * Square(c - k / n) == n * Square(c) - 2.0 * c * k + k * (k / n)
  {
    var r := k / n;
    assert n * r == k;
    assert Square(c - r) == Square(c) - 2.0 * c * r + r * r;
    assert n * (2.0 * c * r) == 2.0 * c * (n * r);
    assert n * (r * r) == (n * r) * r;
  }

  lemma {:induction false} OneGroup(p: real, outcomes: seq<bool>, b: real)
    requires outcomes != []
    ensures var n, k := |outcomes| as real, Hits(outcomes) as real;
            Spread(outcomes, p) - Spread(outcomes, b) == GroupError(p, outcomes) - k + 2.0 * b * k - n * Square(b)
  {
    hide Square;
    hide GroupError;
    hide Hits;
    var n, k := |outcomes| as real, Hits(outcomes) as real;
    GroupErrorClosed(p, outcomes);
    SpreadOpen(n, k, p);
    SpreadOpen(n, k, b);
  }

  function Residual(errors: real, hits: real, n: real, b: real): real {
    errors - hits + 2.0 * b * hits - n * Square(b)
  }

  /** Reliability minus resolution, group by group: the k^2/n terms cancel. */
  lemma {:induction false} Decompose(groups: seq<Group>, b: real)
    requires AllNonempty(groups)
    ensures RelSum(groups) - ResSum(groups, b)
         == Residual(ErrorSum(groups), HitSum(groups) as real, SizeSum(groups) as real, b)
  {
    hide Square;
    hide GroupError;
    hide Hits;
    hide Spread;
    if groups != [] {
      var g := groups[0];
      var n, k := |g.outcomes| as real, Hits(g.outcomes) as real;
      Decompose(groups[1..], b);
      OneGroup(g.p, g.outcomes, b);
      Distribute(k, HitSum(groups[1..]) as real, 2.0 * b);
      Distribute(n, SizeSum(groups[1..]) as real, Square(b));
      assert HitSum(groups) as real == k + HitSum(groups[1..]) as real;
      assert SizeSum(groups) as real == n + SizeSum(groups[1..]) as real;
    }
  }

  lemma {:induction false} AddToSums(groups: seq<Group>, f: Forecast)
    ensures SizeSum(AddTo(groups, f)) == SizeSum(groups) + 1
    ensures HitSum(AddTo(groups, f)) == HitSum(groups) + (if f.outcome then 1 else 0)
    ensures ErrorSum(AddTo(groups, f)) == ErrorSum(groups) + f.Error()
  {
    if groups == [] {
      assert Hits([f.outcome]) == Hits([]) + (if f.outcome then 1 else 0) by { assert [f.outcome][..0] == []; }
      assert GroupError(f.p, [f.outcome]) == GroupError(f.p, []) + f.Error() by { assert [f.outcome][..0] == []; }
    } else if groups[0].p == f.p {
      var os := groups[0].outcomes;
      assert (os + [f.outcome])[..|os|] == os;
    } else {
      AddToSums(groups[1..], f);
      assert AddTo(groups, f)[1..] == AddTo(groups[1..], f);
    }
  }

  lemma {:induction false} GroupSums(fs: seq<Forecast>)
    ensures SizeSum(Groups(fs)) == |fs|
    ensures HitSum(Groups(fs)) == Hits(Outcomes(fs))
    ensures ErrorSum(Groups(fs)) == SquaredErrors(fs)
  {
    if fs != [] {
      var n := |fs| - 1;
      GroupSums(fs[..n]);
      AddToSums(Groups(fs[..n]), fs[n]);
      assert Outcomes(fs)[..n] == Outcomes(fs[..n]);
    }
  }

  /** Murphy's three terms. */
  datatype Murphy = Murphy(reliability: real, resolution: real, uncertainty: real)

  function Decomposition(fs: seq<Forecast>): Murphy
    requires fs != []
  {
    GroupsPartition(fs, 0.0);
    var n := |fs| as real;
    var base := Rate(Outcomes(fs));
    Murphy(Per(RelSum(Groups(fs)), n), Per(ResSum(Groups(fs), base), n), Variance(base))
  }

  /**
   Murphy's identity. For every nonempty resolved register, whatever the forecasts, twice
   (reliability - resolution + uncertainty) over distinct forecast values is exactly the mean Brier score.
   */
  lemma {:induction false} MurphyIdentity(fs: seq<Forecast>)
    requires fs != []
    ensures var m := Decomposition(fs);
            2.0 * (m.reliability - m.resolution + m.uncertainty) == MeanBrier(fs)
  {
    hide Square;
    hide Residual;
    hide Per;
    hide Variance;
    hide Hits;
    hide RelSum;
    hide ResSum;
    hide SquaredErrors;
    GroupsPartition(fs, 0.0);
    GroupSums(fs);
    var n := |fs| as real;
    var b := Rate(Outcomes(fs));
    var k := Hits(Outcomes(fs)) as real;
    Decompose(Groups(fs), b);
    MurphyAlgebra(RelSum(Groups(fs)), ResSum(Groups(fs), b), SquaredErrors(fs), k, n, b);
  }

  lemma MurphyAlgebra(rel: real, res: real, err: real, k: real, n: real, b: real)
    requires n > 0.0 && b == Per(k, n)
    requires rel - res == Residual(err, k, n, b)
    ensures 2.0 * (Per(rel, n) - Per(res, n) + Variance(b)) == Per(2.0 * err, n)
  {
    assert n * b == k;
    assert b * k == n * Square(b);
    assert rel - res == err - n * b + n * Square(b);
    assert (rel - res) / n == rel / n - res / n;
    assert (err - n * b + n * Square(b)) / n == err / n - b + Square(b);
    assert 2.0 * err / n == 2.0 * (err / n);
  }

  // ---------------------------------------------------------------- the scoring loop

  /** The resolved predictions: those the answer key says "true" or "false" about. */
  function Resolved(preds: seq<Prediction>, key: map<string, string>): seq<Forecast> {
    if preds == [] then []
    else
      var p := preds[|preds| - 1];
      Resolved(preds[..|preds| - 1], key)
      + (if p.id in key && key[p.id] in {"true", "false"}
         then [Forecast(Clip(p.probability), key[p.id] == "true")] else [])
  }

  datatype Summary = Summary(
    predictions: nat, resolved: nat, unresolved: nat, baseRate: real, meanBrier: real, murphy: Murphy,
    identityHolds: bool)

  method GroupByValue(done: seq<Forecast>) returns (groups: seq<Group>)
    ensures groups == Groups(done)
  {
    groups := [];
    for i := 0 to |done|
      invariant groups == Groups(done[..i])
    {
      assert done[..i + 1][..i] == done[..i];
      groups := AddTo(groups, done[i]);
    }
    assert done[..|done|] == done;
  }

  method SumTerms(groups: seq<Group>, base: real) returns (rel: real, res: real)
    requires AllNonempty(groups)
    ensures rel == RelSum(groups) && res == ResSum(groups, base)
  {
    hide Spread;
    rel, res := 0.0, 0.0;
    for i := 0 to |groups|
      invariant rel + RelSum(groups[i..]) == RelSum(groups)
      invariant res + ResSum(groups[i..], base) == ResSum(groups, base)
    {
      assert groups[i..][1..] == groups[i + 1..];
      rel := rel + Spread(groups[i].outcomes, groups[i].p);
      res := res + Spread(groups[i].outcomes, base);
    }
  }

  method Tally(done: seq<Forecast>) returns (hits: nat, squared: real)
    ensures hits == Hits(Outcomes(done)) && squared == SquaredErrors(done)
  {
    hits, squared := 0, 0.0;
    for i := 0 to |done|
      invariant hits == Hits(Outcomes(done[..i])) && squared == SquaredErrors(done[..i])
    {
      assert done[..i + 1][..i] == done[..i];
      assert Outcomes(done[..i + 1])[..i] == Outcomes(done[..i]);
      if done[i].outcome {
        hits := hits + 1;
      }
      squared := squared + done[i].Error();
    }
    assert done[..|done|] == done;
  }

  /** The resolved predictions, clipped. */
  method Resolve(preds: seq<Prediction>, key: map<string, string>) returns (done: seq<Forecast>)
    ensures done == Resolved(preds, key) && |done| <= |preds|
  {
    done := [];
    for i := 0 to |preds|
      invariant done == Resolved(preds[..i], key) && |done| <= i
    {
      assert preds[..i + 1][..i] == preds[..i];
      var p := preds[i];
      if p.id in key && key[p.id] in {"true", "false"} {
        done := done + [Forecast(Clip(p.probability), key[p.id] == "true")];
      }
    }
    assert preds[..|preds|] == preds;
  }

  /** Base rate, mean Brier score and the decomposition by distinct value. */
  method Decomposed(done: seq<Forecast>) returns (base: real, brier: real, m: Murphy)
    requires done != []
    ensures brier == MeanBrier(done) && m == Decomposition(done)
  {
    hide Groups;
    hide Variance;
    hide Per;
    var n := |done|;
    var hits, squared := Tally(done);
    base := Per(hits as real, n as real);
    var groups := GroupByValue(done);
    GroupsPartition(done, 0.0);
    var rel, res := SumTerms(groups, base);
    m := Murphy(Per(rel, n as real), Per(res, n as real), Variance(base));
    brier := Per(2.0 * squared, n as real);
  }

  /** Scores a register. Whenever anything resolved, the reported identity flag is true. */
  method Score(preds: seq<Prediction>, key: map<string, string>) returns (s: Summary)
    ensures s.predictions == |preds| == s.resolved + s.unresolved
    ensures s.resolved == |Resolved(preds, key)|
    ensures s.resolved > 0 ==>
              && s.meanBrier == MeanBrier(Resolved(preds, key))
              && s.murphy == Decomposition(Resolved(preds, key))
              && s.identityHolds
  {
    hide Resolved;
    hide Groups;
    hide MeanBrier;
    hide Decomposition;
    hide Variance;
    hide Per;
    var done := Resolve(preds, key);
    var n := |done|;
    if n == 0 {
      return Summary(|preds|, 0, |preds|, 0.0, 0.0, Murphy(0.0, 0.0, 0.0), false);
    }
    var base, brier, m := Decomposed(done);
    MurphyIdentity(done);
    var gap := 2.0 * (m.reliability - m.resolution + m.uncertainty) - brier;
    s := Summary(|preds|, n, |preds| - n, base, brier, m, -0.000000001 < gap < 0.000000001);
  }

  // ---------------------------------------------------------------- reliability table

  /** Half-open bins of width 1/5, the last one closed. */
  predicate InBin(p: real, k: nat) {
    k as real / 5.0 <= p < (k + 1) as real / 5.0 || (k == 4 && p == 1.0)
  }

  function BinCount(fs: seq<Forecast>, k: nat): nat {
    if fs == [] then 0 else BinCount(fs[..|fs| - 1], k) + (if InBin(fs[|fs| - 1].p, k) then 1 else 0)
  }

  /** Every clipped forecast lands in exactly one of the five bins, so the table accounts for all of them. */
  lemma {:induction false} BinsAccountForAll(fs: seq<Forecast>)
    requires forall i :: 0 <= i < |fs| ==> 0.0 <= fs[i].p <= 1.0
    ensures BinCount(fs, 0) + BinCount(fs, 1) + BinCount(fs, 2) + BinCount(fs, 3) + BinCount(fs, 4) == |fs|
  {
    if fs != [] {
      BinsAccountForAll(fs[..|fs| - 1]);
    }
  }
}
