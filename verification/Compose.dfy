/** `_bursty_times`: arrivals allotted to phases by largest remainder, then scattered and sorted. */
module Compose {
  import opened Seqs
  import opened Sorting

  // ---------------------------------------------------------------- specification

  function Sum(xs: seq<real>): real {
    if xs == [] then 0.0 else Sum(xs[..|xs| - 1]) + xs[|xs| - 1]
  }

  function Count(xs: seq<nat>): nat {
    if xs == [] then 0 else Count(xs[..|xs| - 1]) + xs[|xs| - 1]
  }

  predicate Weights(ws: seq<real>) {
    forall i :: 0 <= i < |ws| ==> ws[i] >= 0.0
  }

  /** `sum(activity) or 1.0` */
  function TotalWeight(ws: seq<real>): real {
    if Sum(ws) == 0.0 then 1.0 else Sum(ws)
  }

  /** `n * w / total` */
  function Share(n: real, w: real, total: real): real
    requires total > 0.0
  {
    n * w / total
  }

  lemma {:induction false} SumNonneg(ws: seq<real>)
    requires Weights(ws)
    ensures Sum(ws) >= 0.0 && TotalWeight(ws) > 0.0
    ensures Sum(ws) == 0.0 ==> forall i :: 0 <= i < |ws| ==> ws[i] == 0.0
  {
    if ws != [] {
      SumNonneg(ws[..|ws| - 1]);
    }
  }

  /** Each phase's exact quota of the `n` arrivals. */
  function Quotas(n: nat, ws: seq<real>): (r: seq<real>)
    requires Weights(ws)
    ensures |r| == |ws|
  {
    SumNonneg(ws);
    seq(|ws|, i requires 0 <= i < |ws| => Share(n as real, ws[i], TotalWeight(ws)))
  }

  function Floors(qs: seq<real>): (r: seq<nat>)
    requires Weights(qs)
    ensures |r| == |qs|
  {
    seq(|qs|, i requires 0 <= i < |qs| => qs[i].Floor)
  }

  function Remainders(qs: seq<real>): (r: seq<real>)
    ensures |r| == |qs| && forall i :: 0 <= i < |qs| ==> 0.0 <= r[i] < 1.0 && r[i] == qs[i] - qs[i].Floor as real
  {
    seq(|qs|, i requires 0 <= i < |qs| => qs[i] - qs[i].Floor as real)
  }

  function Indices(k: nat): (r: seq<nat>)
    ensures |r| == k && forall i :: 0 <= i < k ==> r[i] == i
  {
    if k == 0 then [] else Indices(k - 1) + [k - 1]
  }

  /** Sorting by this key ascending is sorting by remainder descending, ties in phase order. */
  function Descending(fracs: seq<real>): nat -> real {
    (i: nat) => if i < |fracs| then -fracs[i] else 0.0
  }

  function Order(fracs: seq<real>): seq<nat> {
    StableSort(Indices(|fracs|), Descending(fracs))
  }

  function Take(xs: seq<nat>, k: nat): seq<nat> {
    if k <= |xs| then xs[..k] else xs
  }

  function Bump(counts: seq<nat>, who: seq<nat>): (r: seq<nat>)
    requires forall i :: 0 <= i < |who| ==> who[i] < |counts|
    ensures |r| == |counts|
  {
    if who == [] then counts
    else
      var before := Bump(counts, who[..|who| - 1]);
      var w := who[|who| - 1];
      before[w := before[w] + 1]
  }

  // ---------------------------------------------------------------- sums

  lemma {:induction false} SumUpdate(xs: seq<nat>, i: nat)
    requires i < |xs|
    ensures Count(xs[i := xs[i] + 1]) == Count(xs) + 1
  {
    var n := |xs| - 1;
    var ys := xs[i := xs[i] + 1];
    if i == n {
      assert ys[..n] == xs[..n];
    } else {
      SumUpdate(xs[..n], i);
      assert ys[..n] == xs[..n][i := xs[i] + 1];
    }
  }

  lemma {:induction false} BumpCount(counts: seq<nat>, who: seq<nat>)
    requires forall i :: 0 <= i < |who| ==> who[i] < |counts|
    ensures Count(Bump(counts, who)) == Count(counts) + |who|
  {
    if who != [] {
      BumpCount(counts, who[..|who| - 1]);
      SumUpdate(Bump(counts, who[..|who| - 1]), who[|who| - 1]);
    }
  }

  /** A phase is raised once for each time it is named. */
  lemma {:induction false} BumpAt(counts: seq<nat>, who: seq<nat>, i: nat)
    requires i < |counts| && forall j :: 0 <= j < |who| ==> who[j] < |counts|
    ensures Bump(counts, who)[i] == counts[i] + multiset(who)[i]
  {
    if who != [] {
      BumpAt(counts, who[..|who| - 1], i);
      assert who == who[..|who| - 1] + [who[|who| - 1]];
    }
  }

  /** The quotas add up to n when the weights do not vanish. */
  lemma {:induction false} SharesSum(n: real, ws: seq<real>, total: real, k: nat)
    requires k <= |ws| && total > 0.0
    ensures Sum(seq(k, i requires 0 <= i < k => Share(n, ws[i], total))) == Share(n, Sum(ws[..k]), total)
  {
    var shares := seq(k, i requires 0 <= i < k => Share(n, ws[i], total));
    if k == 0 {
      assert n * 0.0 / total == 0.0;
    } else {
      SharesSum(n, ws, total, k - 1);
      assert shares[..k - 1] == seq(k - 1, i requires 0 <= i < k - 1 => Share(n, ws[i], total));
      assert ws[..k][..k - 1] == ws[..k - 1];
      ShareAdds(n, Sum(ws[..k - 1]), ws[k - 1], total);
    }
  }

  lemma ShareAdds(n: real, a: real, b: real, total: real)
    requires total > 0.0
    ensures Share(n, a + b, total) == Share(n, a, total) + Share(n, b, total)
  {
    assert n * (a + b) == n * a + n * b;
  }

  lemma ShareWhole(n: real, total: real)
    requires total > 0.0
    ensures Share(n, total, total) == n
  {
  }

  lemma ShareNonneg(n: real, w: real, total: real)
    requires n >= 0.0 && w >= 0.0 && total > 0.0
    ensures Share(n, w, total) >= 0.0
  {
    assert n * w >= 0.0;
  }

  lemma {:induction false} QuotasSum(n: nat, ws: seq<real>)
    requires Weights(ws)
    ensures Weights(Quotas(n, ws))
    ensures Sum(ws) > 0.0 ==> Sum(Quotas(n, ws)) == n as real
    ensures Sum(ws) == 0.0 ==> forall i :: 0 <= i < |ws| ==> Quotas(n, ws)[i] == 0.0
  {
    SumNonneg(ws);
    var total := TotalWeight(ws);
    forall i | 0 <= i < |ws| ensures Quotas(n, ws)[i] >= 0.0 && (ws[i] == 0.0 ==> Quotas(n, ws)[i] == 0.0) {
      ShareNonneg(n as real, ws[i], total);
    }
    if Sum(ws) > 0.0 {
      SharesSum(n as real, ws, total, |ws|);
      assert ws[..|ws|] == ws;
      ShareWhole(n as real, total);
    }
  }

  /** Quotas are floors plus remainders, and so are their sums. */
  lemma {:induction false} SumSplits(qs: seq<real>)
    requires Weights(qs)
    ensures Sum(qs) == Count(Floors(qs)) as real + Sum(Remainders(qs))
  {
    if qs != [] {
      var n := |qs| - 1;
      SumSplits(qs[..n]);
      assert Floors(qs)[..n] == Floors(qs[..n]);
      assert Remainders(qs)[..n] == Remainders(qs[..n]);
    }
  }

  // ---------------------------------------------------------------- order of remainders

  /** The remainders of the phases named, added up. */
  function Named(fracs: seq<real>, who: seq<nat>): real {
    if who == [] then 0.0 else -Descending(fracs)(who[0]) + Named(fracs, who[1..])
  }

  lemma {:induction false} InsertNamed(fracs: seq<real>, x: nat, ys: seq<nat>)
    ensures Named(fracs, Insert(x, ys, Descending(fracs))) == Named(fracs, [x] + ys)
  {
    if !(ys == [] || Descending(fracs)(x) <= Descending(fracs)(ys[0])) {
      var rest := Insert(x, ys[1..], Descending(fracs));
      InsertNamed(fracs, x, ys[1..]);
      assert ([ys[0]] + rest)[1..] == rest;
      assert ([x] + ys)[1..] == ys && ([x] + ys[1..])[1..] == ys[1..];
    }
  }

  lemma {:induction false} SortNamed(fracs: seq<real>, xs: seq<nat>)
    ensures Named(fracs, StableSort(xs, Descending(fracs))) == Named(fracs, xs)
  {
    if xs != [] {
      SortNamed(fracs, xs[1..]);
      InsertNamed(fracs, xs[0], StableSort(xs[1..], Descending(fracs)));
      assert xs == [xs[0]] + xs[1..];
      assert ([xs[0]] + StableSort(xs[1..], Descending(fracs)))[1..] == StableSort(xs[1..], Descending(fracs));
    }
  }

  lemma {:induction false} NamedSnoc(fracs: seq<real>, who: seq<nat>, w: nat)
    ensures Named(fracs, who + [w]) == Named(fracs, who) - Descending(fracs)(w)
  {
    if who == [] {
      assert who + [w] == [w] && [w][1..] == [];
    } else {
      assert (who + [w])[1..] == who[1..] + [w];
      NamedSnoc(fracs, who[1..], w);
    }
  }

  lemma {:induction false} NamedIndices(fracs: seq<real>, k: nat)
    requires k <= |fracs|
    ensures Named(fracs, Indices(k)) == Sum(fracs[..k])
  {
    if k > 0 {
      NamedIndices(fracs, k - 1);
      NamedSnoc(fracs, Indices(k - 1), k - 1);
      assert fracs[..k][..k - 1] == fracs[..k - 1];
    }
  }

  lemma OrderSum(fracs: seq<real>)
    ensures Named(fracs, Order(fracs)) == Sum(fracs)
  {
    SortNamed(fracs, Indices(|fracs|));
    NamedIndices(fracs, |fracs|);
    assert fracs[..|fracs|] == fracs;
  }

  lemma IndicesStep(k: nat)
    ensures Indices(0) == [] && Indices(k + 1) == Indices(k) + [k]
  {
  }

  lemma AppendOnce(xs: seq<nat>, x: nat, i: nat)
    ensures multiset(xs + [x])[i] == multiset(xs)[i] + (if i == x then 1 else 0)
  {
  }

  lemma {:induction false} IndicesOnce(k: nat, i: nat)
    ensures multiset(Indices(k))[i] == if i < k then 1 else 0
  {
    hide Indices;
    IndicesStep(if k == 0 then 0 else k - 1);
    if k > 0 {
      IndicesOnce(k - 1, i);
      AppendOnce(Indices(k - 1), k - 1, i);
    }
  }

  /** Every phase appears in the order exactly once. */
  lemma OrderOnce(fracs: seq<real>, i: nat)
    ensures multiset(Order(fracs))[i] == if i < |fracs| then 1 else 0
    ensures |Order(fracs)| == |fracs|
  {
    SortSorted(Indices(|fracs|), Descending(fracs));
    IndicesOnce(|fracs|, i);
    assert |multiset(Order(fracs))| == |multiset(Indices(|fracs|))|;
  }

  lemma OrderInRange(fracs: seq<real>)
    ensures forall j :: 0 <= j < |Order(fracs)| ==> Order(fracs)[j] < |fracs|
  {
    forall j | 0 <= j < |Order(fracs)| ensures Order(fracs)[j] < |fracs| {
      OrderOnce(fracs, Order(fracs)[j]);
      assert Order(fracs)[j] in multiset(Order(fracs));
    }
  }

  /** Named remainders are each less than one; once they reach zero in the order they stay zero. */
  lemma {:induction false} NamedBound(fracs: seq<real>, who: seq<nat>)
    requires forall i :: 0 <= i < |fracs| ==> 0.0 <= fracs[i] < 1.0
    requires forall j :: 0 <= j < |who| ==> who[j] < |fracs|
    ensures 0.0 <= Named(fracs, who) <= |who| as real
    ensures who != [] ==> Named(fracs, who) < |who| as real
    ensures (forall j :: 0 <= j < |who| ==> fracs[who[j]] == 0.0) ==> Named(fracs, who) == 0.0
  {
    if who != [] {
      NamedBound(fracs, who[1..]);
    }
  }

  lemma {:induction false} NamedConcat(fracs: seq<real>, a: seq<nat>, b: seq<nat>)
    ensures Named(fracs, a + b) == Named(fracs, a) + Named(fracs, b)
  {
    if a == [] {
      assert a + b == b;
    } else {
      assert (a + b)[1..] == a[1..] + b;
      NamedConcat(fracs, a[1..], b);
    }
  }

  lemma TailVanishes(fracs: seq<real>, j: nat)
    requires forall i :: 0 <= i < |fracs| ==> 0.0 <= fracs[i]
    requires forall k :: 0 <= k < |Order(fracs)| ==> Order(fracs)[k] < |fracs|
    requires j < |Order(fracs)| && fracs[Order(fracs)[j]] == 0.0
    ensures forall k :: j <= k < |Order(fracs)| ==> fracs[Order(fracs)[k]] == 0.0
  {
    hide StableSort;
    hide Indices;
    SortSorted(Indices(|fracs|), Descending(fracs));
    var order, key := Order(fracs), Descending(fracs);
    forall k | j <= k < |order| ensures fracs[order[k]] == 0.0 {
      assert k == j || key(order[j]) <= key(order[k]);
    }
  }

  /** When the remainders add up to `rem`, the first `rem` phases in the order all have a positive one. */
  lemma TopArePositive(fracs: seq<real>, rem: nat, j: nat)
    requires forall i :: 0 <= i < |fracs| ==> 0.0 <= fracs[i] < 1.0
    requires Sum(fracs) == rem as real && j < rem
    ensures rem <= |Order(fracs)| && j < |Order(fracs)| && Order(fracs)[j] < |fracs| && fracs[Order(fracs)[j]] > 0.0
  {
    hide Named;
    hide Sum;
    hide Order;
    var order := Order(fracs);
    OrderInRange(fracs);
    OrderSum(fracs);
    NamedBound(fracs, order);
    var front, later := order[..j], order[j..];
    assert order == front + later;
    NamedBound(fracs, front);
    NamedConcat(fracs, front, later);
    if fracs[order[j]] == 0.0 {
      TailVanishes(fracs, j);
      NamedBound(fracs, later);
      assert false;
    }
  }

  // ---------------------------------------------------------------- allotment

  /** What the largest-remainder method gives each phase. */
  function Allotment(n: nat, ws: seq<real>): (r: seq<nat>)
    requires Weights(ws)
    ensures |r| == |ws|
  {
    QuotasSum(n, ws);
    var qs := Quotas(n, ws);
    var fracs := Remainders(qs);
    OrderInRange(fracs);
    var left := n - Count(Floors(qs));
    Bump(Floors(qs), Take(Order(fracs), if left < 0 then 0 else left))
  }

  /** The leftover is never negative, and equals the sum of the remainders when the weights do not vanish. */
  lemma Leftover(n: nat, ws: seq<real>)
    requires Weights(ws)
    ensures var qs := Quotas(n, ws);
            && Weights(qs)
            && Count(Floors(qs)) <= n
            && (Sum(ws) > 0.0 ==> Sum(Remainders(qs)) == (n - Count(Floors(qs))) as real)
            && (Sum(ws) == 0.0 ==> Count(Floors(qs)) == 0)
  {
    var qs := Quotas(n, ws);
    QuotasSum(n, ws);
    SumNonneg(ws);
    SumSplits(qs);
    SumNonneg(Remainders(qs));
    if Sum(ws) == 0.0 {
      ZeroFloors(qs);
    }
  }

  lemma {:induction false} ZeroFloors(qs: seq<real>)
    requires Weights(qs) && forall i :: 0 <= i < |qs| ==> qs[i] == 0.0
    ensures Count(Floors(qs)) == 0
  {
    if qs != [] {
      ZeroFloors(qs[..|qs| - 1]);
      assert Floors(qs)[..|qs| - 1] == Floors(qs[..|qs| - 1]);
    }
  }

  /**
   All `n` arrivals are allotted exactly when some weight is positive, or there are at least as many
   phases as arrivals: with all weights zero each phase can only be given one.
   */
  lemma {:induction false} AllotmentTotal(n: nat, ws: seq<real>)
    requires Weights(ws)
    ensures Count(Allotment(n, ws)) == n <==> Sum(ws) > 0.0 || n <= |ws|
  {
    hide Quotas;
    hide Order;
    hide Allotment;
    hide Sum;
    hide Count;
    hide Remainders;
    hide Floors;
    QuotasSum(n, ws);
    Leftover(n, ws);
    SumNonneg(ws);
    AllotmentCount(n, ws);
    var fracs := Remainders(Quotas(n, ws));
    var left: nat := n - Count(Floors(Quotas(n, ws)));
    OrderOnce(fracs, 0);
    if Sum(ws) > 0.0 && left > 0 {
      TopArePositive(fracs, left, 0);
    }
  }

  /** The floors, and one for each of the leftover arrivals as far as there are phases. */
  lemma AllotmentCount(n: nat, ws: seq<real>)
    requires Weights(ws) && Weights(Quotas(n, ws)) && Count(Floors(Quotas(n, ws))) <= n
    ensures var given := Count(Floors(Quotas(n, ws)));
            Count(Allotment(n, ws)) == given + (if n - given <= |ws| then n - given else |ws|)
  {
    hide Quotas;
    hide Order;
    hide Floors;
    hide Bump;
    hide Count;
    var qs := Quotas(n, ws);
    var fracs := Remainders(qs);
    OrderInRange(fracs);
    OrderOnce(fracs, 0);
    BumpCount(Floors(qs), Take(Order(fracs), n - Count(Floors(qs))));
  }

  /** Each phase gets the floor or the ceiling of its quota. */
  lemma {:induction false} AllotmentQuota(n: nat, ws: seq<real>, i: nat)
    requires Weights(ws) && Sum(ws) > 0.0 && i < |ws|
    ensures var q, a := Quotas(n, ws)[i], Allotment(n, ws)[i];
            a as real <= q < a as real + 1.0 || (q < a as real < q + 1.0)
  {
    hide Order;
    hide Quotas;
    hide Share;
    hide Sum;
    QuotasSum(n, ws);
    Leftover(n, ws);
    var left: nat := n - Count(Floors(Quotas(n, ws)));
    RaisedOnce(n, ws, i, left);
    var fracs := Remainders(Quotas(n, ws));
    var top := Take(Order(fracs), left);
    if i in top {
      var j :| 0 <= j < |top| && top[j] == i;
      TopArePositive(fracs, left, j);
    }
  }

  /** A phase gets its floor, and one more exactly when it is among those taken. */
  lemma RaisedOnce(n: nat, ws: seq<real>, i: nat, left: nat)
    requires Weights(ws) && i < |ws| && Weights(Quotas(n, ws)) && left == n - Count(Floors(Quotas(n, ws)))
    ensures Allotment(n, ws)[i] == Floors(Quotas(n, ws))[i]
              + (if i in Take(Order(Remainders(Quotas(n, ws))), left) then 1 else 0)
  {
    hide Order;
    hide Quotas;
    hide Bump;
    var qs := Quotas(n, ws);
    var fracs := Remainders(qs);
    OrderInRange(fracs);
    OrderOnce(fracs, i);
    BumpAt(Floors(qs), Take(Order(fracs), left), i);
    TakeOnce(Order(fracs), left, i);
  }

  lemma TakeOnce(xs: seq<nat>, k: nat, i: nat)
    ensures multiset(Take(xs, k))[i] <= multiset(xs)[i]
    ensures i in Take(xs, k) <==> multiset(Take(xs, k))[i] > 0
  {
    if k <= |xs| {
      assert xs == xs[..k] + xs[k..];
    }
  }

  lemma LargerFirst(fracs: seq<real>, a: nat, b: nat)
    requires |Order(fracs)| == |fracs| && a < |fracs| && b < |fracs|
    requires forall j :: 0 <= j < |fracs| ==> Order(fracs)[j] < |fracs|
    requires fracs[Order(fracs)[a]] < fracs[Order(fracs)[b]]
    ensures b < a
  {
    SortSorted(Indices(|fracs|), Descending(fracs));
    var key := Descending(fracs);
    assert key(Order(fracs)[b]) < key(Order(fracs)[a]);
  }

  /** No phase with a smaller remainder is rounded up while one with a larger remainder is not. */
  lemma AllotmentFair(n: nat, ws: seq<real>, i: nat, j: nat)
    requires Weights(ws) && i < |ws| && j < |ws|
    requires var fracs := Remainders(Quotas(n, ws)); fracs[i] < fracs[j]
    requires Weights(Quotas(n, ws)) && Allotment(n, ws)[i] > Floors(Quotas(n, ws))[i]
    ensures Allotment(n, ws)[j] > Floors(Quotas(n, ws))[j]
  {
    var qs := Quotas(n, ws);
    Leftover(n, ws);
    var fracs := Remainders(qs);
    var order := Order(fracs);
    var left: nat := n - Count(Floors(qs));
    OrderInRange(fracs);
    OrderOnce(fracs, i);
    OrderOnce(fracs, j);
    var top := Take(order, left);
    BumpAt(Floors(qs), top, i);
    BumpAt(Floors(qs), top, j);
    TakeOnce(order, left, i);
    TakeOnce(order, left, j);
    assert i in top && j in multiset(order);
    var a :| 0 <= a < |top| && top[a] == i;
    var b :| 0 <= b < |order| && order[b] == j;
    assert order[a] == i;
    LargerFirst(fracs, a, b);
    assert a < |top| && b <= a && top[b] == j;
  }

  // ---------------------------------------------------------------- the routine

  method AddUp(ws: seq<real>) returns (total: real)
    ensures total == Sum(ws)
  {
    total := 0.0;
    for i := 0 to |ws|
      invariant total == Sum(ws[..i])
    {
      assert ws[..i + 1][..i] == ws[..i];
      total := total + ws[i];
    }
    assert ws[..|ws|] == ws;
  }

  method AddUpCounts(xs: seq<nat>) returns (total: nat)
    ensures total == Count(xs)
  {
    total := 0;
    for i := 0 to |xs|
      invariant total == Count(xs[..i])
    {
      assert xs[..i + 1][..i] == xs[..i];
      total := total + xs[i];
    }
    assert xs[..|xs|] == xs;
  }

  /** Each weight's part of n; all-zero weights are divided by one. */
  method ShareOut(n: nat, activity: seq<real>) returns (raw: seq<real>)
    requires Weights(activity)
    ensures raw == Quotas(n, activity)
  {
    hide Share;
    SumNonneg(activity);
    var total := AddUp(activity);
    if total == 0.0 {
      total := 1.0;
    }
    raw := seq(|activity|, i requires 0 <= i < |activity| => Share(n as real, activity[i], total));
  }

  /** Floors first, then one more for each of the largest remainders, in place. */
  method Allot(n: nat, activity: seq<real>) returns (counts: array<nat>)
    requires Weights(activity)
    ensures fresh(counts)
    ensures counts[..] == Allotment(n, activity)
  {
    hide Quotas;
    hide Order;
    hide Floors;
    hide Remainders;
    hide Sum;
    hide Count;
    QuotasSum(n, activity);
    var raw := ShareOut(n, activity);
    var floors := Floors(raw);
    counts := new nat[|floors|](i requires 0 <= i < |floors| => floors[i]);
    assert counts[..] == floors;
    var given := AddUpCounts(floors);
    Leftover(n, activity);
    var rem: nat := n - given;
    var fracs := Remainders(raw);
    OrderInRange(fracs);
    var chosen := Take(Order(fracs), rem);
    BumpInPlace(counts, chosen);
  }

  method BumpInPlace(counts: array<nat>, chosen: seq<nat>)
    requires forall i :: 0 <= i < |chosen| ==> chosen[i] < counts.Length
    modifies counts
    ensures counts[..] == Bump(old(counts[..]), chosen)
  {
    ghost var floors := counts[..];
    for k := 0 to |chosen|
      invariant counts[..] == Bump(floors, chosen[..k])
    {
      assert chosen[..k + 1][..k] == chosen[..k];
      counts[chosen[k]] := counts[chosen[k]] + 1;
    }
    assert chosen[..|chosen|] == chosen;
  }

  /** `max(1, round(n ** 0.5))`: the integer whose half-open neighbourhood holds the square root. */
  method NearestRoot(n: nat) returns (r: nat)
    ensures 1 <= r && (r == 1 || (2 * r - 1) * (2 * r - 1) <= 4 * n) && 4 * n < (2 * r + 1) * (2 * r + 1)
  {
    r := 1;
    while (2 * r + 1) * (2 * r + 1) <= 4 * n
      invariant 1 <= r && (r == 1 || (2 * r - 1) * (2 * r - 1) <= 4 * n)
      decreases 4 * n - 2 * r
    {
      assert (2 * r + 1) * (2 * r + 1) > 2 * r;
      r := r + 1;
    }
  }

  const SELF: real -> real := (t: real) => t

  ghost predicate Window(times: seq<real>, start: real, duration: real) {
    forall i :: 0 <= i < |times| ==> start <= times[i] <= start + duration
  }

  /** Where one draw lands: clamped into the window. */
  function Clamp(t: real, duration: real): real {
    var low := if t < 0.0 then 0.0 else t;
    if duration < low then duration else low
  }

  /** One phase's draws, clamped. */
  method Scatter(k: nat, start: real, duration: real, draws: nat -> real, first: nat) returns (times: seq<real>)
    ensures |times| == k
    ensures duration >= 0.0 ==> Window(times, start, duration)
    ensures duration < 0.0 ==> forall i :: 0 <= i < k ==> times[i] < start
  {
    times := [];
    for j := 0 to k
      invariant |times| == j
      invariant duration >= 0.0 ==> Window(times, start, duration)
      invariant duration < 0.0 ==> forall i :: 0 <= i < j ==> times[i] < start
    {
      times := times + [start + Clamp(draws(first + j), duration)];
    }
  }

  /** A flat envelope when none is given. */
  method Envelope(n: nat, activity: seq<real>) returns (ws: seq<real>)
    requires Weights(activity)
    ensures Weights(ws)
    ensures activity != [] ==> ws == activity
    ensures activity == [] ==> Sum(ws) > 0.0
  {
    if activity != [] {
      return activity;
    }
    var phases := NearestRoot(n);
    ws := seq(phases, _ => 1.0);
    FlatPositive(ws);
  }

  lemma {:induction false} FlatPositive(ws: seq<real>)
    requires ws != [] && forall i :: 0 <= i < |ws| ==> ws[i] == 1.0
    ensures Sum(ws) > 0.0
  {
    SumNonneg(ws[..|ws| - 1]);
  }

  /** Every phase's draws in turn. */
  method ScatterAll(counts: seq<nat>, start: real, duration: real, draws: nat -> real) returns (out: seq<real>)
    ensures |out| == Count(counts)
    ensures duration >= 0.0 ==> Window(out, start, duration)
    ensures duration < 0.0 ==> forall j :: 0 <= j < |out| ==> out[j] < start
  {
    out := [];
    for i := 0 to |counts|
      invariant |out| == Count(counts[..i])
      invariant duration >= 0.0 ==> Window(out, start, duration)
      invariant duration < 0.0 ==> forall j :: 0 <= j < |out| ==> out[j] < start
    {
      assert counts[..i + 1][..i] == counts[..i];
      var phase := Scatter(counts[i], start, duration, draws, |out|);
      out := out + phase;
    }
    assert counts[..|counts|] == counts;
  }

  lemma SortKeepsWindow(out: seq<real>, start: real, duration: real)
    requires duration >= 0.0 ==> Window(out, start, duration)
    requires duration < 0.0 ==> forall j :: 0 <= j < |out| ==> out[j] < start
    ensures var times := StableSort(out, SELF);
            && |times| == |out|
            && SortedBy(times, SELF)
            && (Window(times, start, duration) <==> duration >= 0.0 || times == [])
  {
    var times := StableSort(out, SELF);
    SortSorted(out, SELF);
    hide StableSort;
    assert |multiset(times)| == |multiset(out)|;
    forall j | 0 <= j < |times| ensures times[j] in out {
      assert times[j] in multiset(times);
    }
    assert duration < 0.0 && times != [] ==> times[0] < start;
  }

  /**
   Sorted arrival times for any draws. There are exactly `n` of them unless a given envelope is all
   zero with fewer phases than arrivals, and they lie in the window unless the duration is negative.
   */
  method BurstyTimes(n: int, start: real, duration: real, activity: seq<real>, draws: nat -> real)
    returns (times: seq<real>)
    requires Weights(activity)
    ensures SortedBy(times, SELF)
    ensures n <= 0 ==> times == []
    ensures n > 0 ==> (|times| == n <==> activity == [] || Sum(activity) > 0.0 || n <= |activity|)
    ensures Window(times, start, duration) <==> duration >= 0.0 || times == []
  {
    if n <= 0 {
      return [];
    }
    hide Allotment;
    hide Sum;
    hide StableSort;
    var ws := Envelope(n, activity);
    var counts := Allot(n, ws);
    AllotmentTotal(n, ws);
    var out := ScatterAll(counts[..], start, duration, draws);
    SortKeepsWindow(out, start, duration);
    times := StableSort(out, SELF);
  }
}
