/** Field markings: selectors, `resolve_marking`, and the two censuses of field classes. */
module Markings {
  import opened Seqs
  import TcpModel

  datatype Icd = Observed | Judgment | Assumption | Fabricated

  datatype Derivation = RetrievedFrom | ImportedFrom | DerivedFrom | SourceAccessedAt

  datatype Mark = Mark(
    selectors: seq<string>, icd203: Icd, pedigree: nat, derivation: Option<Derivation>, claimRef: string)

  datatype FieldMarkings = FieldMarkings(aleatoricFields: seq<string>, marks: seq<Mark>)

  /** One value a reader could check: a dotted path in a flow. */
  datatype Fact = Fact(flowId: string, path: string)

  datatype Class = Aleatoric | Marked(icd: Icd)

  // ---------------------------------------------------------------- selectors

  /** `sel.partition(".")`, first part. */
  function Head(sel: string): (h: string)
    ensures '.' !in h && |h| <= |sel| && sel[..|h|] == h
    ensures |h| < |sel| ==> sel[|h|] == '.'
  {
    if sel == "" || sel[0] == '.' then "" else [sel[0]] + Head(sel[1..])
  }

  function Path(sel: string): string {
    if |Head(sel)| == |sel| then "" else sel[|Head(sel)| + 1..]
  }

  function Dots(s: string): nat {
    if s == "" then 0 else (if s[0] == '.' then 1 else 0) + Dots(s[1..])
  }

  /** Exact flow before wildcard, then the deeper path. */
  datatype Score = Score(exact: bool, depth: nat)
  {
    predicate Above(other: Score) {
      (exact && !other.exact) || (exact == other.exact && depth > other.depth)
    }
  }

  function SelectorScore(sel: string, flowId: string, fact: string): Option<Score> {
    var head, path := Head(sel), Path(sel);
    if head != "*" && head != flowId then None
    else if path != "" && !(fact == path || path + "." <= fact) then None
    else Some(Score(head != "*", if path == "" then 0 else 1 + Dots(path)))
  }

  /** The selector is the head alone, or the head and a whole-component prefix of the fact's path. */
  ghost predicate Names(sel: string, head: string, fact: string) {
    && '.' !in head
    && (sel == head || sel == head + "."
        || exists n :: 0 < n <= |fact| && (n == |fact| || fact[n] == '.') && sel == head + "." + fact[..n])
  }

  lemma {:induction false} HeadOf(head: string, rest: string)
    requires '.' !in head
    ensures Head(head) == head && Path(head) == ""
    ensures Head(head + "." + rest) == head && Path(head + "." + rest) == rest
  {
    var sel := head + "." + rest;
    if head == "" {
      assert Head(sel) == "" && sel[1..] == rest;
    } else {
      HeadOf(head[1..], rest);
      assert sel[1..] == head[1..] + "." + rest;
      assert Head(sel) == [head[0]] + Head(sel[1..]) == head;
      assert Head(head) == [head[0]] + Head(head[1..]) == head;
      assert sel[|head| + 1..] == rest;
    }
  }

  /** A selector matches exactly when it names the fact through `*` or through the flow's own id. */
  lemma SelectorMeaning(sel: string, flowId: string, fact: string)
    ensures SelectorScore(sel, flowId, fact).Some? <==> Names(sel, "*", fact) || Names(sel, flowId, fact)
  {
    var head, path := Head(sel), Path(sel);
    assert path != "" ==> sel == head + "." + path;
    if SelectorScore(sel, flowId, fact).Some? {
      if path != "" {
        var n := |path|;
        assert fact[..n] == path by {
          if fact != path {
            assert fact[..n] == (path + ".")[..n];
          }
        }
        assert n == |fact| || fact[n] == '.' by {
          if fact != path {
            assert (path + ".")[n] == fact[n];
          }
        }
      } else if |head| != |sel| {
        assert sel == head + ".";
      }
    }
    forall h | (h == "*" || h == flowId) && Names(sel, h, fact) ensures SelectorScore(sel, flowId, fact).Some? {
      NamesScores(sel, h, flowId, fact);
    }
  }

  lemma NamesScores(sel: string, head: string, flowId: string, fact: string)
    requires (head == "*" || head == flowId) && Names(sel, head, fact)
    ensures SelectorScore(sel, flowId, fact).Some?
  {
    HeadOf(head, "");
    if sel != head && sel != head + "." {
      var n :| 0 < n <= |fact| && (n == |fact| || fact[n] == '.') && sel == head + "." + fact[..n];
      HeadOf(head, fact[..n]);
      if n < |fact| {
        assert fact[..n] + "." == fact[..n + 1];
      }
    } else {
      assert head + "." + "" == head + ".";
    }
  }

  /** Some selector singles out a flow's facts exactly when its id holds no dot and is not the wildcard. */
  lemma AddressableIds(flowId: string, fact: string)
    ensures (exists sel :: SelectorScore(sel, flowId, fact).Some? && Head(sel) != "*")
       <==> '.' !in flowId && flowId != "*"
  {
    if '.' !in flowId && flowId != "*" {
      HeadOf(flowId, "");
      assert SelectorScore(flowId, flowId, fact).Some?;
    }
  }

  lemma {:induction false} DotsOfPrefix(p: string, q: string)
    requires p <= q
    ensures Dots(p) <= Dots(q)
    ensures |p| < |q| && q[|p|] == '.' ==> Dots(p) < Dots(q)
  {
    if p != "" {
      DotsOfPrefix(p[1..], q[1..]);
    } else if q != "" && q[0] == '.' {
      assert Dots(q) > 0;
    }
  }

  lemma Component(fact: string, p: string, q: string)
    requires (fact == p || p + "." <= fact) && (fact == q || q + "." <= fact) && |p| < |q|
    ensures p <= q && q[|p|] == '.'
  {
    assert fact != p && p + "." <= fact;
    assert fact[|p|] == (p + ".")[|p|] == '.';
    assert fact[..|p|] == (p + ".")[..|p|] == p;
    if fact != q {
      assert fact[..|q|] == (q + ".")[..|q|] == q;
    }
  }

  /** A tie in specificity is a tie in meaning: the two selectors name the same path, the same way. */
  lemma TiesNameTheSame(a: string, b: string, flowId: string, fact: string)
    requires SelectorScore(a, flowId, fact).Some?
    requires SelectorScore(b, flowId, fact) == SelectorScore(a, flowId, fact)
    ensures Head(a) == Head(b) && Path(a) == Path(b)
  {
    var p, q := Path(a), Path(b);
    if p != "" && q != "" {
      if |p| < |q| {
        Component(fact, p, q);
        DotsOfPrefix(p, q);
      } else if |q| < |p| {
        Component(fact, q, p);
        DotsOfPrefix(q, p);
      } else {
        assert p == fact[..|p|] && q == fact[..|q|] by {
          assert (p + ".")[..|p|] == p && (q + ".")[..|q|] == q;
        }
      }
    }
  }

  // ---------------------------------------------------------------- most specific wins

  /** The best score among the first n selectors of a mark. */
  function BestOf(selectors: seq<string>, n: nat, flowId: string, fact: string): Option<Score>
    requires n <= |selectors|
  {
    if n == 0 then None
    else
      var best, s := BestOf(selectors, n - 1, flowId, fact), SelectorScore(selectors[n - 1], flowId, fact);
      if s.Some? && (best.None? || s.value.Above(best.value)) then s else best
  }

  function MarkScore(m: Mark, flowId: string, fact: string): Option<Score> {
    BestOf(m.selectors, |m.selectors|, flowId, fact)
  }

  /** The mark that wins among the first n. */
  function Winner(marks: seq<Mark>, n: nat, flowId: string, fact: string): (r: Option<nat>)
    requires n <= |marks|
    ensures r.Some? ==> r.value < n && MarkScore(marks[r.value], flowId, fact).Some?
  {
    if n == 0 then None
    else
      var best, s := Winner(marks, n - 1, flowId, fact), MarkScore(marks[n - 1], flowId, fact);
      if s.Some? && (best.None? || s.value.Above(MarkScore(marks[best.value], flowId, fact).value)) then Some(n - 1)
      else best
  }

  function Resolve(fm: Option<FieldMarkings>, flowId: string, fact: string): (r: Option<nat>)
    ensures r.Some? ==> fm.Some? && r.value < |fm.value.marks|
  {
    if fm.None? then None else Winner(fm.value.marks, |fm.value.marks|, flowId, fact)
  }

  lemma {:induction false} BestIsBound(selectors: seq<string>, n: nat, k: nat, flowId: string, fact: string)
    requires k < n <= |selectors|
    ensures NotAbove(SelectorScore(selectors[k], flowId, fact), BestOf(selectors, n, flowId, fact))
  {
    hide SelectorScore;
    hide NotAbove;
    hide Score.Above;
    var was, now := BestOf(selectors, n - 1, flowId, fact), BestOf(selectors, n, flowId, fact);
    BetterOf(was, SelectorScore(selectors[n - 1], flowId, fact));
    if k < n - 1 {
      BestIsBound(selectors, n - 1, k, flowId, fact);
      NotAboveTransitive(SelectorScore(selectors[k], flowId, fact), was, now);
    }
  }

  lemma {:induction false} BestIsAttained(selectors: seq<string>, n: nat, flowId: string, fact: string) returns (k: nat)
    requires n <= |selectors| && BestOf(selectors, n, flowId, fact).Some?
    ensures k < n && SelectorScore(selectors[k], flowId, fact) == BestOf(selectors, n, flowId, fact)
  {
    hide SelectorScore;
    hide Score.Above;
    var s := SelectorScore(selectors[n - 1], flowId, fact);
    if s == BestOf(selectors, n, flowId, fact) {
      k := n - 1;
    } else {
      k := BestIsAttained(selectors, n - 1, flowId, fact);
    }
  }

  lemma BestIsMaximal(m: Mark, flowId: string, fact: string)
    ensures MarkScore(m, flowId, fact).Some? <==> Matches(m, flowId, fact)
    ensures forall k :: 0 <= k < |m.selectors| ==>
      NotAbove(SelectorScore(m.selectors[k], flowId, fact), MarkScore(m, flowId, fact))
    ensures MarkScore(m, flowId, fact).Some? ==>
      exists k :: 0 <= k < |m.selectors| && SelectorScore(m.selectors[k], flowId, fact) == MarkScore(m, flowId, fact)
  {
    hide SelectorScore;
    hide BestOf;
    forall k | 0 <= k < |m.selectors|
      ensures NotAbove(SelectorScore(m.selectors[k], flowId, fact), MarkScore(m, flowId, fact))
    {
      BestIsBound(m.selectors, |m.selectors|, k, flowId, fact);
    }
    if MarkScore(m, flowId, fact).Some? {
      var k := BestIsAttained(m.selectors, |m.selectors|, flowId, fact);
    }
  }

  predicate NotAbove(s: Option<Score>, best: Option<Score>) {
    s.Some? ==> best.Some? && !s.value.Above(best.value)
  }

  lemma NotAboveTransitive(a: Option<Score>, b: Option<Score>, c: Option<Score>)
    ensures NotAbove(a, b) && NotAbove(b, c) ==> NotAbove(a, c)
  {
  }

  lemma BetterOf(was: Option<Score>, s: Option<Score>)
    ensures var now := if s.Some? && (was.None? || s.value.Above(was.value)) then s else was;
            NotAbove(was, now) && NotAbove(s, now)
  {
  }

  /** Mark r beats every earlier one and is beaten by none, among the first n. */
  ghost predicate Beats(marks: seq<Mark>, r: nat, k: nat, flowId: string, fact: string)
    requires r < |marks| && k < |marks|
  {
    var best, s := MarkScore(marks[r], flowId, fact), MarkScore(marks[k], flowId, fact);
    best.Some? && (s.Some? ==> !s.value.Above(best.value) && (k < r ==> best.value.Above(s.value)))
  }

  lemma {:induction false} BeatsStep(marks: seq<Mark>, n: nat, k: nat, flowId: string, fact: string)
    requires 0 < n <= |marks| && k < n
    requires
      var was := Winner(marks, n - 1, flowId, fact);
      k < n - 1 ==>
        if was.Some? then Beats(marks, was.value, k, flowId, fact) else MarkScore(marks[k], flowId, fact).None?
    ensures
      var r := Winner(marks, n, flowId, fact);
      if r.Some? then Beats(marks, r.value, k, flowId, fact) else MarkScore(marks[k], flowId, fact).None?
  {
    hide MarkScore;
  }

  lemma {:induction false} WinnerIsEarliestBest(marks: seq<Mark>, n: nat, flowId: string, fact: string)
    requires n <= |marks|
    ensures
      var r := Winner(marks, n, flowId, fact);
      forall k :: 0 <= k < n ==>
        if r.Some? then Beats(marks, r.value, k, flowId, fact) else MarkScore(marks[k], flowId, fact).None?
  {
    hide MarkScore;
    hide Beats;
    hide Score.Above;
    hide Winner;
    forall k | 0 <= k < n ensures
        var r := Winner(marks, n, flowId, fact);
        if r.Some? then Beats(marks, r.value, k, flowId, fact) else MarkScore(marks[k], flowId, fact).None?
    {
      if k < n - 1 {
        WinnerIsEarliestBest(marks, n - 1, flowId, fact);
      }
      BeatsStep(marks, n, k, flowId, fact);
    }
  }

  ghost predicate Matches(m: Mark, flowId: string, fact: string) {
    exists k :: 0 <= k < |m.selectors| && SelectorScore(m.selectors[k], flowId, fact).Some?
  }

  /** The selector's specificity is nowhere exceeded, and not reached by an earlier mark. */
  ghost predicate Decides(marks: seq<Mark>, r: nat, sel: string, flowId: string, fact: string)
    requires r < |marks|
  {
    && sel in marks[r].selectors && SelectorScore(sel, flowId, fact).Some?
    && forall k, j :: 0 <= k < |marks| && 0 <= j < |marks[k].selectors| ==>
         var s := SelectorScore(marks[k].selectors[j], flowId, fact);
         s.Some? ==>
           && !s.value.Above(SelectorScore(sel, flowId, fact).value)
           && (k < r ==> SelectorScore(sel, flowId, fact).value.Above(s.value))
  }

  /** None exactly when nothing marks the fact; otherwise the earliest mark of maximal specificity. */
  lemma ResolveIsMostSpecific(fm: FieldMarkings, flowId: string, fact: string)
    ensures
      var r := Resolve(Some(fm), flowId, fact);
      && (r.None? <==> forall k :: 0 <= k < |fm.marks| ==> !Matches(fm.marks[k], flowId, fact))
      && (r.Some? ==> exists sel :: Decides(fm.marks, r.value, sel, flowId, fact))
  {
    hide SelectorScore;
    var marks := fm.marks;
    WinnerIsEarliestBest(marks, |marks|, flowId, fact);
    forall k | 0 <= k < |marks| ensures MarkScore(marks[k], flowId, fact).Some? <==> Matches(marks[k], flowId, fact) {
      BestIsMaximal(marks[k], flowId, fact);
    }
    var r := Resolve(Some(fm), flowId, fact);
    if r.Some? {
      var sels := marks[r.value].selectors;
      BestIsMaximal(marks[r.value], flowId, fact);
      var w :| 0 <= w < |sels| && SelectorScore(sels[w], flowId, fact) == MarkScore(marks[r.value], flowId, fact);
      forall k, j | 0 <= k < |marks| && 0 <= j < |marks[k].selectors| ensures
          var s := SelectorScore(marks[k].selectors[j], flowId, fact);
          s.Some? ==>
            && !s.value.Above(SelectorScore(sels[w], flowId, fact).value)
            && (k < r.value ==> SelectorScore(sels[w], flowId, fact).value.Above(s.value))
      {
        assert Beats(marks, r.value, k, flowId, fact);
        BestIsMaximal(marks[k], flowId, fact);
      }
      assert Decides(marks, r.value, sels[w], flowId, fact);
    }
  }

  /** The inner loop: one mark's selectors against the best so far. */
  method TrySelectors(m: Mark, i: nat, flowId: string, fact: string, was: Option<nat>, wasScore: Option<Score>)
    returns (best: Option<nat>, bestScore: Option<Score>)
    ensures
      var own := MarkScore(m, flowId, fact);
      if own.Some? && (wasScore.None? || own.value.Above(wasScore.value)) then best == Some(i) && bestScore == own
      else best == was && bestScore == wasScore
  {
    hide SelectorScore;
    best, bestScore := was, wasScore;
    for j := 0 to |m.selectors|
      invariant
        var own := BestOf(m.selectors, j, flowId, fact);
        if own.Some? && (wasScore.None? || own.value.Above(wasScore.value)) then best == Some(i) && bestScore == own
        else best == was && bestScore == wasScore
    {
      var score := SelectorScore(m.selectors[j], flowId, fact);
      if score.Some? && (bestScore.None? || score.value.Above(bestScore.value)) {
        best, bestScore := Some(i), score;
      }
    }
  }

  /** The nested loops over marks and their selectors. */
  method ResolveMarking(fm: Option<FieldMarkings>, flowId: string, fact: string) returns (best: Option<nat>)
    ensures best == Resolve(fm, flowId, fact)
  {
    if fm.None? {
      return None;
    }
    hide MarkScore;
    hide Score.Above;
    var marks := fm.value.marks;
    best := None;
    var bestScore: Option<Score> := None;
    for i := 0 to |marks|
      invariant best == Winner(marks, i, flowId, fact)
      invariant bestScore == if best.Some? then MarkScore(marks[best.value], flowId, fact) else None
    {
      best, bestScore := TrySelectors(marks[i], i, flowId, fact, best, bestScore);
    }
  }

  // ---------------------------------------------------------------- two censuses

  function Last(path: string): string {
    if '.' !in path then path else Last(path[|Head(path)| + 1..])
  }

  predicate IsAleatoric(fm: Option<FieldMarkings>, fact: string) {
    fm.Some? && (fact in fm.value.aleatoricFields || Last(fact) in fm.value.aleatoricFields)
  }

  /** The report's census: the marking first; a mark that failed its sourcing check counts as none. */
  function GlobalClass(fm: Option<FieldMarkings>, invalid: set<nat>, f: Fact): Class {
    var mk := Resolve(fm, f.flowId, f.path);
    if mk.None? && IsAleatoric(fm, f.path) then Aleatoric
    else if mk.None? || mk.value in invalid then Marked(Fabricated)
    else Marked(fm.value.marks[mk.value].icd203)
  }

  /** The annotation's census: the aleatoric list first, and no sourcing check. */
  function FlowClass(fm: Option<FieldMarkings>, f: Fact): Class {
    if IsAleatoric(fm, f.path) then Aleatoric
    else
      var mk := Resolve(fm, f.flowId, f.path);
      if mk.Some? then Marked(fm.value.marks[mk.value].icd203) else Marked(Fabricated)
  }

  predicate Shadowed(fm: Option<FieldMarkings>, f: Fact) {
    IsAleatoric(fm, f.path) && Resolve(fm, f.flowId, f.path).Some?
  }

  predicate Demoted(fm: Option<FieldMarkings>, invalid: set<nat>, f: Fact) {
    var mk := Resolve(fm, f.flowId, f.path);
    mk.Some? && mk.value in invalid && fm.value.marks[mk.value].icd203 != Fabricated
  }

  /** The two censuses class a fact alike unless it is both aleatoric and marked, or its mark was refused. */
  lemma ClassesAgree(fm: Option<FieldMarkings>, invalid: set<nat>, f: Fact)
    ensures GlobalClass(fm, invalid, f) == FlowClass(fm, f)
       <==> !Shadowed(fm, f) && !Demoted(fm, invalid, f)
  {
  }

  function Count(facts: seq<Fact>, classOf: Fact -> Class, c: Class): nat {
    if facts == [] then 0
    else Count(facts[..|facts| - 1], classOf, c) + (if classOf(facts[|facts| - 1]) == c then 1 else 0)
  }

  function Global(fm: Option<FieldMarkings>, invalid: set<nat>): Fact -> Class {
    (f: Fact) => GlobalClass(fm, invalid, f)
  }

  function PerFlow(fm: Option<FieldMarkings>): Fact -> Class {
    (f: Fact) => FlowClass(fm, f)
  }

  /** Every fact is in one class: the mix sums to the number of facts. */
  lemma {:induction false} MixIsTotal(facts: seq<Fact>, classOf: Fact -> Class)
    ensures Count(facts, classOf, Aleatoric) + Count(facts, classOf, Marked(Observed))
          + Count(facts, classOf, Marked(Judgment)) + Count(facts, classOf, Marked(Assumption))
          + Count(facts, classOf, Marked(Fabricated)) == |facts|
  {
    if facts != [] {
      MixIsTotal(facts[..|facts| - 1], classOf);
      var c := classOf(facts[|facts| - 1]);
      match c
      case Aleatoric =>
      case Marked(icd) => assert icd.Observed? || icd.Judgment? || icd.Assumption? || icd.Fabricated?;
    }
  }

  lemma {:induction false} CountConcat(a: seq<Fact>, b: seq<Fact>, classOf: Fact -> Class, c: Class)
    ensures Count(a + b, classOf, c) == Count(a, classOf, c) + Count(b, classOf, c)
  {
    if b == [] {
      assert a + b == a;
    } else {
      var n := |b| - 1;
      assert (a + b)[..|a + b| - 1] == a + b[..n];
      CountConcat(a, b[..n], classOf, c);
    }
  }

  /** Where one classification uses a class only if the other does, it counts no more, and as many only if they agree. */
  lemma {:induction false} CountsDominated(facts: seq<Fact>, low: Fact -> Class, high: Fact -> Class, c: Class)
    requires forall f :: f in facts ==> (low(f) == c ==> high(f) == c)
    ensures Count(facts, low, c) <= Count(facts, high, c)
    ensures Count(facts, low, c) == Count(facts, high, c) <==> forall f :: f in facts ==> (high(f) == c ==> low(f) == c)
  {
    if facts != [] {
      var n := |facts| - 1;
      assert facts == facts[..n] + [facts[n]];
      CountsDominated(facts[..n], low, high, c);
    }
  }

  /** A shadowed fact is aleatoric in the annotation alone. */
  lemma ShadowedMeans(f: Fact, fm: Option<FieldMarkings>, invalid: set<nat>)
    ensures Global(fm, invalid)(f) == Aleatoric ==> PerFlow(fm)(f) == Aleatoric
    ensures Shadowed(fm, f) <==> PerFlow(fm)(f) == Aleatoric && Global(fm, invalid)(f) != Aleatoric
  {
    hide Resolve;
    hide IsAleatoric;
  }

  /** A fact that is not shadowed is fabricated in the report alone exactly when its mark was refused. */
  lemma DemotedMeans(f: Fact, fm: Option<FieldMarkings>, invalid: set<nat>)
    requires !Shadowed(fm, f)
    ensures PerFlow(fm)(f) == Marked(Fabricated) ==> Global(fm, invalid)(f) == Marked(Fabricated)
    ensures Demoted(fm, invalid, f)
       <==> Global(fm, invalid)(f) == Marked(Fabricated) && PerFlow(fm)(f) != Marked(Fabricated)
  {
    hide Resolve;
    hide IsAleatoric;
  }

  lemma AleatoricTotals(facts: seq<Fact>, fm: Option<FieldMarkings>, invalid: set<nat>)
    ensures Count(facts, Global(fm, invalid), Aleatoric) <= Count(facts, PerFlow(fm), Aleatoric)
    ensures Count(facts, Global(fm, invalid), Aleatoric) == Count(facts, PerFlow(fm), Aleatoric)
       <==> forall f :: f in facts ==> !Shadowed(fm, f)
  {
    hide Count;
    hide Shadowed;
    hide Global;
    hide PerFlow;
    forall f
      ensures Global(fm, invalid)(f) == Aleatoric ==> PerFlow(fm)(f) == Aleatoric
      ensures Shadowed(fm, f) <==> PerFlow(fm)(f) == Aleatoric && Global(fm, invalid)(f) != Aleatoric
    {
      ShadowedMeans(f, fm, invalid);
    }
    CountsDominated(facts, Global(fm, invalid), PerFlow(fm), Aleatoric);
  }

  lemma FabricatedTotals(facts: seq<Fact>, fm: Option<FieldMarkings>, invalid: set<nat>)
    requires forall f :: f in facts ==> !Shadowed(fm, f)
    ensures Count(facts, PerFlow(fm), Marked(Fabricated)) <= Count(facts, Global(fm, invalid), Marked(Fabricated))
    ensures Count(facts, PerFlow(fm), Marked(Fabricated)) == Count(facts, Global(fm, invalid), Marked(Fabricated))
       <==> forall f :: f in facts ==> !Demoted(fm, invalid, f)
  {
    hide Count;
    hide Shadowed;
    hide Demoted;
    hide Global;
    hide PerFlow;
    var c := Marked(Fabricated);
    forall f | f in facts
      ensures PerFlow(fm)(f) == c ==> Global(fm, invalid)(f) == c
      ensures Demoted(fm, invalid, f) <==> Global(fm, invalid)(f) == c && PerFlow(fm)(f) != c
    {
      DemotedMeans(f, fm, invalid);
    }
    CountsDominated(facts, PerFlow(fm), Global(fm, invalid), c);
  }

  lemma {:induction false} SameCounts(facts: seq<Fact>, f: Fact -> Class, g: Fact -> Class, c: Class)
    requires forall x :: x in facts ==> f(x) == g(x)
    ensures Count(facts, f, c) == Count(facts, g, c)
  {
    if facts != [] {
      SameCounts(facts[..|facts| - 1], f, g, c);
    }
  }

  ghost predicate SameTotals(facts: seq<Fact>, fm: Option<FieldMarkings>, invalid: set<nat>) {
    forall c :: Count(facts, Global(fm, invalid), c) == Count(facts, PerFlow(fm), c)
  }

  ghost predicate Undisputed(facts: seq<Fact>, fm: Option<FieldMarkings>, invalid: set<nat>) {
    forall f :: f in facts ==> !Shadowed(fm, f) && !Demoted(fm, invalid, f)
  }

  /**
   The totals of the two censuses agree in every class exactly when every single fact is classed
   alike: no disagreement can cancel another.
   */
  lemma TotalsAgree(facts: seq<Fact>, fm: Option<FieldMarkings>, invalid: set<nat>)
    ensures SameTotals(facts, fm, invalid) <==> Undisputed(facts, fm, invalid)
  {
    hide Resolve;
    hide IsAleatoric;
    hide Count;
    AleatoricTotals(facts, fm, invalid);
    if forall f :: f in facts ==> !Shadowed(fm, f) {
      FabricatedTotals(facts, fm, invalid);
      if forall f :: f in facts ==> !Demoted(fm, invalid, f) {
        forall f | f in facts ensures Global(fm, invalid)(f) == PerFlow(fm)(f) {
          ClassesAgree(fm, invalid, f);
        }
        forall c ensures Count(facts, Global(fm, invalid), c) == Count(facts, PerFlow(fm), c) {
          SameCounts(facts, Global(fm, invalid), PerFlow(fm), c);
        }
      } else {
        assert Count(facts, Global(fm, invalid), Marked(Fabricated)) != Count(facts, PerFlow(fm), Marked(Fabricated));
      }
    } else {
      assert Count(facts, Global(fm, invalid), Aleatoric) != Count(facts, PerFlow(fm), Aleatoric);
    }
  }

  // ---------------------------------------------------------------- counting them

  /** What the gate reads of a flow; `at` gives the printed value at each dotted path of its dump. */
  datatype FlowRec = FlowRec(
    id: string, srcIp: string, dstIp: string, udp: bool, connState: TcpModel.ConnState, startTime: real,
    at: map<string, string>, facts: seq<string>)

  type Mix = map<Class, nat>

  function Get(mix: Mix, c: Class): nat {
    if c in mix then mix[c] else 0
  }

  function FactsOf(f: FlowRec): seq<Fact> {
    seq(|f.facts|, i requires 0 <= i < |f.facts| => Fact(f.id, f.facts[i]))
  }

  function AllFacts(flows: seq<FlowRec>): seq<Fact> {
    if flows == [] then [] else AllFacts(flows[..|flows| - 1]) + FactsOf(flows[|flows| - 1])
  }

  /** `counts[key] = counts.get(key, 0) + 1` over a list of facts. */
  method Tally(facts: seq<Fact>, fm: Option<FieldMarkings>) returns (mix: Mix)
    ensures forall c :: Get(mix, c) == Count(facts, PerFlow(fm), c)
  {
    mix := map[];
    for i := 0 to |facts|
      invariant forall c :: Get(mix, c) == Count(facts[..i], PerFlow(fm), c)
    {
      var f := facts[i];
      assert facts[..i + 1][..i] == facts[..i];
      var key;
      if IsAleatoric(fm, f.path) {
        key := Aleatoric;
      } else {
        var mk := ResolveMarking(fm, f.flowId, f.path);
        key := Marked(if mk.Some? then fm.value.marks[mk.value].icd203 else Fabricated);
      }
      assert key == PerFlow(fm)(f);
      mix := mix[key := Get(mix, key) + 1];
    }
    assert facts[..|facts|] == facts;
  }

  ghost predicate DistinctIds(flows: seq<FlowRec>) {
    forall i, j :: 0 <= i < j < |flows| ==> flows[i].id != flows[j].id
  }

  /** The flows that are not followed by another with the same id. */
  function Kept(flows: seq<FlowRec>): seq<FlowRec> {
    if flows == [] then []
    else if exists j :: 1 <= j < |flows| && flows[j].id == flows[0].id then Kept(flows[1..])
    else [flows[0]] + Kept(flows[1..])
  }

  /** Each kept flow's entry holds its own counts. */
  ghost predicate Holds(out: map<string, Mix>, f: FlowRec, fm: Option<FieldMarkings>) {
    f.id in out && forall c :: Get(out[f.id], c) == Count(FactsOf(f), PerFlow(fm), c)
  }

  lemma {:induction false} KeptSnoc(flows: seq<FlowRec>, f: FlowRec)
    ensures forall x :: x in Kept(flows + [f]) ==> x == f || (x in Kept(flows) && x.id != f.id)
    ensures f in Kept(flows + [f])
  {
    var all := flows + [f];
    if flows == [] {
      assert Kept(all[1..]) == [];
    } else {
      assert all[1..] == flows[1..] + [f];
      KeptSnoc(flows[1..], f);
      assert all[|flows|] == f;
      assert forall j :: 1 <= j < |flows| ==> all[j] == flows[j];
      if all[0].id == f.id {
        assert Kept(all) == Kept(all[1..]);
      }
    }
  }

  lemma {:induction false} KeptAll(flows: seq<FlowRec>)
    requires DistinctIds(flows)
    ensures Kept(flows) == flows
  {
    if flows != [] {
      KeptAll(flows[1..]);
    }
  }

  lemma NoneKept()
    ensures Kept([]) == []
  {
  }

  lemma Overwritten(
    flows: seq<FlowRec>, f: FlowRec, was: map<string, Mix>, counts: Mix, fm: Option<FieldMarkings>)
    requires forall x :: x in Kept(flows) ==> Holds(was, x, fm)
    requires forall c :: Get(counts, c) == Count(FactsOf(f), PerFlow(fm), c)
    ensures forall x :: x in Kept(flows + [f]) ==> Holds(was[f.id := counts], x, fm)
  {
    hide Kept;
    hide Count;
    hide Get;
    KeptSnoc(flows, f);
  }

  function IdsOf(flows: seq<FlowRec>): set<string> {
    set f | f in flows :: f.id
  }

  /** One entry per flow id, overwritten when an id repeats. */
  method PerFlowFieldMix(fm: Option<FieldMarkings>, flows: seq<FlowRec>) returns (out: map<string, Mix>)
    ensures out.Keys == IdsOf(flows)
    ensures forall f :: f in Kept(flows) ==> Holds(out, f, fm)
  {
    out := map[];
    hide Count;
    hide Holds;
    hide Kept;
    NoneKept();
    for i := 0 to |flows|
      invariant out.Keys == IdsOf(flows[..i])
      invariant forall f :: f in Kept(flows[..i]) ==> Holds(out, f, fm)
    {
      var counts := Tally(FactsOf(flows[i]), fm);
      assert flows[..i + 1] == flows[..i] + [flows[i]];
      Overwritten(flows[..i], flows[i], out, counts, fm);
      out := out[flows[i].id := counts];
    }
    assert flows[..|flows|] == flows;
  }

  /** The sum of a class over some of the entries, in any order. */
  ghost function SumKeys(keys: set<string>, out: map<string, Mix>, c: Class): nat
    requires keys <= out.Keys
  {
    if keys == {} then 0
    else
      var k :| k in keys;
      Get(out[k], c) + SumKeys(keys - {k}, out, c)
  }

  lemma {:induction false} SumKeysAny(keys: set<string>, out: map<string, Mix>, c: Class, k: string)
    requires keys <= out.Keys && k in keys
    ensures SumKeys(keys, out, c) == Get(out[k], c) + SumKeys(keys - {k}, out, c)
    decreases |keys|
  {
    var first :| first in keys && SumKeys(keys, out, c) == Get(out[first], c) + SumKeys(keys - {first}, out, c);
    if first != k {
      SumKeysAny(keys - {first}, out, c, k);
      SumKeysAny(keys - {k}, out, c, first);
      assert keys - {first} - {k} == keys - {k} - {first};
    }
  }

  lemma {:induction false} SumsAreCounts(
    flows: seq<FlowRec>, out: map<string, Mix>, fm: Option<FieldMarkings>, c: Class)
    requires DistinctIds(flows) && forall f :: f in flows ==> Holds(out, f, fm)
    ensures IdsOf(flows) <= out.Keys
    ensures SumKeys(IdsOf(flows), out, c) == Count(AllFacts(flows), PerFlow(fm), c)
  {
    if flows != [] {
      hide Count;
      hide SumKeys;
      var n := |flows| - 1;
      assert flows == flows[..n] + [flows[n]];
      SumsAreCounts(flows[..n], out, fm, c);
      assert Holds(out, flows[n], fm);
      assert IdsOf(flows) - {flows[n].id} == IdsOf(flows[..n]);
      SumKeysAny(IdsOf(flows), out, c, flows[n].id);
      CountConcat(AllFacts(flows[..n]), FactsOf(flows[n]), PerFlow(fm), c);
    }
  }

  /**
   With distinct flow ids, the per-flow entries sum to the report's mix in every class exactly when no
   fact is both aleatoric and marked and none had its mark refused.
   */
  lemma CensusesAgree(
    flows: seq<FlowRec>, fm: Option<FieldMarkings>, invalid: set<nat>, out: map<string, Mix>, mix: Mix)
    requires DistinctIds(flows) && out.Keys == IdsOf(flows) && forall f :: f in Kept(flows) ==> Holds(out, f, fm)
    requires forall c :: Get(mix, c) == Count(AllFacts(flows), Global(fm, invalid), c)
    ensures (forall c :: SumKeys(out.Keys, out, c) == Get(mix, c))
       <==> Undisputed(AllFacts(flows), fm, invalid)
  {
    hide Holds;
    hide Count;
    hide SumKeys;
    hide Undisputed;
    hide Get;
    KeptAll(flows);
    var facts := AllFacts(flows);
    forall c ensures SumKeys(out.Keys, out, c) == Get(mix, c)
        <==> Count(facts, Global(fm, invalid), c) == Count(facts, PerFlow(fm), c)
    {
      SumsAreCounts(flows, out, fm, c);
    }
    TotalsAgree(facts, fm, invalid);
    if SameTotals(facts, fm, invalid) {
      forall c ensures SumKeys(out.Keys, out, c) == Get(mix, c) {
        assert Count(facts, Global(fm, invalid), c) == Count(facts, PerFlow(fm), c);
      }
    } else {
      var c :| Count(facts, Global(fm, invalid), c) != Count(facts, PerFlow(fm), c);
      assert SumKeys(out.Keys, out, c) != Get(mix, c);
    }
  }
}
