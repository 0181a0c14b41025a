/** The order in which flows are listed decides nothing but the order among simultaneous packets. */
module Permutation {
  import opened Seqs
  import opened Sorting
  import opened TcpModel
  import opened Timeline
  import opened TimelineTheorems

  /** No two flows have a packet at the same time. */
  ghost predicate NoneSimultaneous(flows: seq<Flow>) {
    forall i, j :: 0 <= i < j < |flows| ==> Apart(flows[i], flows[j])
  }

  ghost predicate Apart(f: Flow, g: Flow) {
    forall p, q :: p in Emitted(f) && q in Emitted(g) ==> p.time != q.time
  }

  /** Takes one flow out of a list. */
  lemma Pull(flows: seq<Flow>, f: Flow) returns (before: seq<Flow>, after: seq<Flow>)
    requires f in flows
    ensures flows == before + [f] + after
    ensures multiset(before + after) == multiset(flows) - multiset{f}
  {
    var i :| 0 <= i < |flows| && flows[i] == f;
    before, after := flows[..i], flows[i + 1..];
    assert flows == before + [f] + after;
  }

  lemma {:induction false} EmittedAround(before: seq<Flow>, f: Flow, after: seq<Flow>)
    ensures AllEmitted(before + [f] + after) == AllEmitted(before) + Emitted(f) + AllEmitted(after)
    ensures AllEmitted(before + after) == AllEmitted(before) + AllEmitted(after)
    ensures AllEmitted([f] + after) == Emitted(f) + AllEmitted(after)
  {
    hide Emitted;
    assert [f][1..] == [] && AllEmitted([f]) == Emitted(f) + [];
    hide AllEmitted;
    AllEmittedConcat(before + [f], after);
    AllEmittedConcat(before, [f]);
    AllEmittedConcat(before, after);
    AllEmittedConcat([f], after);
  }

  /** Listing the flows in another order emits the same packets. */
  lemma {:induction false} SamePackets(flows: seq<Flow>, others: seq<Flow>)
    requires multiset(flows) == multiset(others)
    ensures multiset(AllEmitted(flows)) == multiset(AllEmitted(others))
    decreases |others|
  {
    hide Emitted;
    if others == [] {
      assert |multiset(flows)| == 0;
      assert flows == [];
    } else {
      var f := others[0];
      assert others == [f] + others[1..];
      assert f in multiset(flows);
      var before, after := Pull(flows, f);
      SamePackets(before + after, others[1..]);
      EmittedAround(before, f, after);
      EmittedAround([], f, others[1..]);
    }
  }

  lemma {:induction false} TiedNone(flows: seq<Flow>, f: Flow, t: real)
    requires forall g :: g in flows ==> Apart(g, f)
    requires Tied(Emitted(f), TIME, t) != []
    ensures Tied(AllEmitted(flows), TIME, t) == []
  {
    if flows != [] {
      TiedNone(flows[1..], f, t);
      FilterConcat(Emitted(flows[0]), AllEmitted(flows[1..]), HasKey(TIME, t));
      NeverTied(flows[0], f, t);
    }
  }

  lemma {:induction false} NeverTied(g: Flow, f: Flow, t: real)
    requires Apart(g, f)
    ensures Tied(Emitted(g), TIME, t) == [] || Tied(Emitted(f), TIME, t) == []
  {
    hide Emitted;
    var a, b := Tied(Emitted(g), TIME, t), Tied(Emitted(f), TIME, t);
    assert forall p :: p in a ==> p in Emitted(g) && p.time == t;
    assert forall p :: p in b ==> p in Emitted(f) && p.time == t;
    assert (a != [] ==> a[0] in a) && (b != [] ==> b[0] in b);
  }

  lemma TiedConcat(a: seq<Packet>, b: seq<Packet>, t: real)
    ensures Tied(a + b, TIME, t) == Tied(a, TIME, t) + Tied(b, TIME, t)
  {
    FilterConcat(a, b, HasKey(TIME, t));
  }

  lemma PullTied(a: seq<Packet>, e: seq<Packet>, b: seq<Packet>, t: real)
    requires Tied(a, TIME, t) == [] || Tied(e, TIME, t) == []
    ensures Tied(a + e + b, TIME, t) == Tied(e, TIME, t) + Tied(a + b, TIME, t)
  {
    hide Tied;
    TiedConcat(a + e, b, t);
    TiedConcat(a, e, t);
    TiedConcat(a, b, t);
  }

  /** Packets at one time come from one flow, so that flow may be listed first. */
  lemma TiedFirst(before: seq<Flow>, f: Flow, after: seq<Flow>, t: real)
    requires forall g :: g in before ==> Apart(g, f)
    ensures Tied(AllEmitted(before + [f] + after), TIME, t)
         == Tied(Emitted(f), TIME, t) + Tied(AllEmitted(before + after), TIME, t)
  {
    hide Emitted;
    hide AllEmitted;
    hide Apart;
    hide Tied;
    EmittedAround(before, f, after);
    if Tied(Emitted(f), TIME, t) != [] {
      TiedNone(before, f, t);
    }
    PullTied(AllEmitted(before), Emitted(f), AllEmitted(after), t);
  }

  lemma TiedHead(f: Flow, rest: seq<Flow>, t: real)
    ensures Tied(AllEmitted([f] + rest), TIME, t) == Tied(Emitted(f), TIME, t) + Tied(AllEmitted(rest), TIME, t)
  {
    assert [] + [f] + rest == [f] + rest && [] + rest == rest;
    TiedFirst([], f, rest, t);
  }

  lemma StillApart(before: seq<Flow>, f: Flow, after: seq<Flow>)
    requires NoneSimultaneous(before + [f] + after)
    ensures NoneSimultaneous(before + after)
    ensures forall g :: g in before ==> Apart(g, f)
  {
    hide Apart;
    var flows, without := before + [f] + after, before + after;
    forall g | g in before ensures Apart(g, f) {
      var i :| 0 <= i < |before| && before[i] == g;
      assert flows[i] == g && flows[|before|] == f;
    }
    forall i, j | 0 <= i < j < |without| ensures Apart(without[i], without[j]) {
      var m, n := if i < |before| then i else i + 1, if j < |before| then j else j + 1;
      assert flows[m] == without[i] && flows[n] == without[j];
    }
  }

  lemma {:induction false} SameTies(flows: seq<Flow>, others: seq<Flow>, t: real)
    requires multiset(flows) == multiset(others) && NoneSimultaneous(flows)
    ensures Tied(AllEmitted(flows), TIME, t) == Tied(AllEmitted(others), TIME, t)
    decreases |others|
  {
    hide Emitted;
    hide Apart;
    hide Filter;
    hide NoneSimultaneous;
    hide AllEmitted;
    if others == [] {
      assert |multiset(flows)| == 0;
      assert flows == [];
    } else {
      var f, rest := others[0], others[1..];
      assert others == [f] + rest;
      assert f in multiset(flows);
      var before, after := Pull(flows, f);
      StillApart(before, f, after);
      SameTies(before + after, rest, t);
      TiedFirst(before, f, after, t);
      TiedHead(f, rest, t);
    }
  }

  /**
   Permuting the flows permutes the packets of the capture, and gives the identical capture when no
   two flows have a packet at the same time.
   */
  lemma FlowOrderIrrelevant(flows: seq<Flow>, others: seq<Flow>)
    requires multiset(flows) == multiset(others)
    ensures multiset(Capture(flows)) == multiset(Capture(others))
    ensures SortedBy(Capture(flows), TIME)
    ensures NoneSimultaneous(flows) ==> Capture(flows) == Capture(others)
  {
    hide AllEmitted;
    hide NoneSimultaneous;
    SamePackets(flows, others);
    SortSorted(AllEmitted(flows), TIME);
    SortSorted(AllEmitted(others), TIME);
    if NoneSimultaneous(flows) {
      forall t: real ensures Tied(Capture(flows), TIME, t) == Tied(Capture(others), TIME, t) {
        SameTies(flows, others, t);
        SortStable(AllEmitted(flows), TIME, t);
        SortStable(AllEmitted(others), TIME, t);
      }
      SortedUnique(Capture(flows), Capture(others), TIME);
    }
  }
}
