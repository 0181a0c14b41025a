/** The sampler of `flowset_from_evidenceforge`: round-robin over (protocol, service) groups. */
module Sampling {
  import opened Numbers
  import opened Seqs
  import opened Sorting
  import TcpModel

  datatype Proto = Tcp | Udp | Icmp

  datatype Key = Key(proto: Proto, service: string)

  /** A conn record with what the correlated dns, http and ssl logs say about its uid. */
  datatype Rec = Rec(
    proto: Proto, service: string, orig: TcpModel.Addr, resp: TcpModel.Addr, ts: real,
    connState: TcpModel.ConnState, origBytes: nat, respBytes: nat,
    inDns: bool, httpMethodSafe: Option<bool>, sslVersionKnown: Option<bool>)
  {
    function GroupKey(): Key { Key(proto, service) }
  }

  // ---------------------------------------------------------------- grouping

  function KeyIs(key: Key): Rec -> bool {
    (r: Rec) => r.GroupKey() == key
  }

  function Members(conns: seq<Rec>, key: Key): seq<Rec> {
    Filter(conns, KeyIs(key))
  }

  const TS: Rec -> real := (r: Rec) => r.ts

  /** One group's records in time order. */
  function InOrder(conns: seq<Rec>, key: Key): seq<Rec> {
    StableSort(Members(conns, key), TS)
  }

  ghost predicate Seen(conns: seq<Rec>, key: Key) {
    exists i :: 0 <= i < |conns| && conns[i].GroupKey() == key
  }

  ghost predicate Distinct(keys: seq<Key>) {
    forall i, j :: 0 <= i < j < |keys| ==> keys[i] != keys[j]
  }

  lemma {:induction false} MembersConcat(a: seq<Rec>, b: seq<Rec>, key: Key)
    ensures Members(a + b, key) == Members(a, key) + Members(b, key)
  {
    if a == [] {
      assert a + b == b;
    } else {
      assert (a + b)[1..] == a[1..] + b;
      MembersConcat(a[1..], b, key);
    }
  }

  lemma MembersOne(r: Rec, key: Key)
    ensures Members([r], key) == if r.GroupKey() == key then [r] else []
  {
    assert [r] == [r] + [];
    FilterCons(r, [], KeyIs(key));
  }

  lemma {:induction false} NoMembers(conns: seq<Rec>, key: Key)
    requires !Seen(conns, key)
    ensures Members(conns, key) == []
  {
    if conns != [] {
      assert conns[0].GroupKey() != key;
      assert forall i :: 0 <= i < |conns| - 1 ==> conns[1..][i] == conns[i + 1];
      NoMembers(conns[1..], key);
    }
  }

  lemma SeenSnoc(conns: seq<Rec>, r: Rec, key: Key)
    ensures Seen(conns + [r], key) <==> Seen(conns, key) || r.GroupKey() == key
  {
    var all := conns + [r];
    assert all[|conns|] == r;
    assert forall i :: 0 <= i < |conns| ==> all[i] == conns[i];
  }

  /** `groups.setdefault(key, []).append(r)`, with the insertion order of a dict. */
  method GroupConns(conns: seq<Rec>) returns (order: seq<Key>, groups: map<Key, seq<Rec>>)
    ensures Distinct(order)
    ensures forall key :: key in order <==> Seen(conns, key)
    ensures forall key :: key in groups <==> Seen(conns, key)
    ensures forall key :: key in groups ==> groups[key] == Members(conns, key)
  {
    hide Members;
    order, groups := [], map[];
    assert forall key :: !Seen([], key);
    hide Seen;
    for i := 0 to |conns|
      invariant Distinct(order)
      invariant forall key :: key in order <==> Seen(conns[..i], key)
      invariant forall key :: key in groups <==> Seen(conns[..i], key)
      invariant forall key :: key in groups ==> groups[key] == Members(conns[..i], key)
    {
      var r := conns[i];
      var key := r.GroupKey();
      assert conns[..i + 1] == conns[..i] + [r];
      forall k ensures Seen(conns[..i + 1], k) <==> Seen(conns[..i], k) || key == k
      {
        SeenSnoc(conns[..i], r, k);
      }
      forall k ensures Members(conns[..i + 1], k) == Members(conns[..i], k) + (if key == k then [r] else [])
      {
        MembersConcat(conns[..i], [r], k);
        MembersOne(r, k);
      }
      if key !in groups {
        NoMembers(conns[..i], key);
        order := order + [key];
        groups := groups[key := [r]];
      } else {
        groups := groups[key := groups[key] + [r]];
      }
    }
    assert conns[..|conns|] == conns;
  }

  function Total(lists: seq<seq<Rec>>): nat {
    if lists == [] then 0 else |lists[0]| + Total(lists[1..])
  }

  function Lists(keys: seq<Key>, conns: seq<Rec>): (r: seq<seq<Rec>>)
    ensures |r| == |keys| && forall i :: 0 <= i < |keys| ==> r[i] == InOrder(conns, keys[i])
  {
    if keys == [] then [] else [InOrder(conns, keys[0])] + Lists(keys[1..], conns)
  }

  lemma SortSize(recs: seq<Rec>)
    ensures |StableSort(recs, TS)| == |recs|
  {
    SortSorted(recs, TS);
    assert |multiset(StableSort(recs, TS))| == |multiset(recs)|;
  }

  lemma {:induction false} MembersCount(keys: seq<Key>, conns: seq<Rec>, r: Rec)
    requires Distinct(keys)
    ensures Total(Lists(keys, conns + [r])) == Total(Lists(keys, conns)) + (if r.GroupKey() in keys then 1 else 0)
  {
    if keys != [] {
      hide Members;
      hide StableSort;
      assert keys == [keys[0]] + keys[1..];
      MembersCount(keys[1..], conns, r);
      MembersConcat(conns, [r], keys[0]);
      MembersOne(r, keys[0]);
      SortSize(Members(conns, keys[0]));
      SortSize(Members(conns + [r], keys[0]));
      assert Lists(keys, conns)[1..] == Lists(keys[1..], conns);
      assert Lists(keys, conns + [r])[1..] == Lists(keys[1..], conns + [r]);
    }
  }

  lemma {:induction false} EmptyLists(keys: seq<Key>)
    ensures Total(Lists(keys, [])) == 0
  {
    if keys != [] {
      EmptyLists(keys[1..]);
      SortSize(Members([], keys[0]));
      assert Lists(keys, [])[1..] == Lists(keys[1..], []);
    }
  }

  /** Every record is in exactly one group, whatever distinct keys cover them. */
  lemma {:induction false} ListsHoldAll(keys: seq<Key>, conns: seq<Rec>)
    requires Distinct(keys) && forall r :: r in conns ==> r.GroupKey() in keys
    ensures Total(Lists(keys, conns)) == |conns|
    decreases |conns|
  {
    hide Lists;
    hide Distinct;
    hide Total;
    if conns == [] {
      EmptyLists(keys);
    } else {
      var n := |conns| - 1;
      var before, last := conns[..n], conns[n];
      assert conns == before + [last];
      ListsHoldAll(keys, before);
      MembersCount(keys, before, last);
    }
  }

  // ---------------------------------------------------------------- round robin

  /** The `idx`-th records of the first `j` groups, for those that have one. */
  function RoundPart(lists: seq<seq<Rec>>, idx: nat, j: nat): seq<Rec>
    requires j <= |lists|
  {
    if j == 0 then []
    else RoundPart(lists, idx, j - 1) + (if idx < |lists[j - 1]| then [lists[j - 1][idx]] else [])
  }

  /** The first `idx` rounds in full. */
  function Rounds(lists: seq<seq<Rec>>, idx: nat): seq<Rec> {
    if idx == 0 then [] else Rounds(lists, idx - 1) + RoundPart(lists, idx - 1, |lists|)
  }

  /** How much of the k-th group has been taken after `idx` rounds and the first `j` groups of the next. */
  function Taken(lists: seq<seq<Rec>>, idx: nat, j: nat, k: nat): nat
    requires k < |lists|
  {
    Min(if k < j then idx + 1 else idx, |lists[k]|)
  }

  lemma {:induction false} RoundPartMore(lists: seq<seq<Rec>>, idx: nat, j: nat)
    requires j <= |lists|
    ensures |RoundPart(lists, idx, j)| <= j
    ensures |RoundPart(lists, idx, j)| == 0 <==> forall k :: 0 <= k < j ==> |lists[k]| <= idx
  {
    if j > 0 {
      RoundPartMore(lists, idx, j - 1);
    }
  }

  function Left(lists: seq<seq<Rec>>, idx: nat): nat {
    if lists == [] then 0 else (if idx < |lists[0]| then |lists[0]| - idx else 0) + Left(lists[1..], idx)
  }

  lemma {:induction false} PartOfTail(lists: seq<seq<Rec>>, idx: nat, j: nat)
    requires 0 < j <= |lists|
    ensures |RoundPart(lists, idx, j)|
         == (if idx < |lists[0]| then 1 else 0) + |RoundPart(lists[1..], idx, j - 1)|
  {
    if j > 1 {
      PartOfTail(lists, idx, j - 1);
    } else {
      assert RoundPart(lists, idx, 0) == [];
    }
  }

  /** A whole round takes one from every group that still has one. */
  lemma {:induction false} RoundTakes(lists: seq<seq<Rec>>, idx: nat)
    ensures Left(lists, idx) == |RoundPart(lists, idx, |lists|)| + Left(lists, idx + 1)
  {
    if lists != [] {
      PartOfTail(lists, idx, |lists|);
      RoundTakes(lists[1..], idx);
    }
  }

  lemma {:induction false} RoundsSize(lists: seq<seq<Rec>>, idx: nat)
    ensures |Rounds(lists, idx)| + Left(lists, idx) == Total(lists)
  {
    hide Left;
    hide Total;
    hide RoundPart;
    if idx == 0 {
      LeftAtStart(lists);
    } else {
      RoundsSize(lists, idx - 1);
      RoundTakes(lists, idx - 1);
    }
  }

  lemma {:induction false} LeftAtStart(lists: seq<seq<Rec>>)
    ensures Left(lists, 0) == Total(lists)
  {
    if lists != [] {
      LeftAtStart(lists[1..]);
    }
  }

  lemma {:induction false} NothingLeft(lists: seq<seq<Rec>>, idx: nat)
    requires forall k :: 0 <= k < |lists| ==> |lists[k]| <= idx
    ensures Left(lists, idx) == 0
  {
    if lists != [] {
      NothingLeft(lists[1..], idx);
    }
  }

  lemma {:induction false} PartPrefix(lists: seq<seq<Rec>>, idx: nat, j: nat)
    requires j <= |lists|
    ensures |RoundPart(lists, idx, j)| <= |RoundPart(lists, idx, |lists|)|
    decreases |lists| - j
  {
    if j < |lists| {
      PartPrefix(lists, idx, j + 1);
    }
  }

  ghost predicate Carries(recs: seq<Rec>, key: Key) {
    forall m :: 0 <= m < |recs| ==> recs[m].GroupKey() == key
  }

  /** Records of a list all carry its key, and no other list's. */
  ghost predicate Keyed(lists: seq<seq<Rec>>, keys: seq<Key>) {
    && |lists| == |keys|
    && Distinct(keys)
    && forall i :: 0 <= i < |lists| ==> Carries(lists[i], keys[i])
  }

  lemma {:induction false} PartOfGroup(lists: seq<seq<Rec>>, keys: seq<Key>, idx: nat, j: nat, k: nat)
    requires Keyed(lists, keys) && j <= |lists| && k < |lists|
    ensures Members(RoundPart(lists, idx, j), keys[k]) == if k < j && idx < |lists[k]| then [lists[k][idx]] else []
  {
    hide Members;
    if j == 0 {
      NoMembers([], keys[k]);
    } else {
      PartOfGroup(lists, keys, idx, j - 1, k);
      var before := RoundPart(lists, idx, j - 1);
      var next := if idx < |lists[j - 1]| then [lists[j - 1][idx]] else [];
      MembersConcat(before, next, keys[k]);
      assert Carries(lists[j - 1], keys[j - 1]);
      if next == [] {
        NoMembers(next, keys[k]);
      } else {
        MembersOne(lists[j - 1][idx], keys[k]);
      }
    }
  }

  lemma {:induction false} RoundsOfGroup(lists: seq<seq<Rec>>, keys: seq<Key>, idx: nat, k: nat)
    requires Keyed(lists, keys) && k < |lists|
    ensures Members(Rounds(lists, idx), keys[k]) == lists[k][..Min(idx, |lists[k]|)]
  {
    hide Members;
    if idx == 0 {
      NoMembers([], keys[k]);
    } else {
      hide RoundPart;
      hide Keyed;
      RoundsOfGroup(lists, keys, idx - 1, k);
      PartOfGroup(lists, keys, idx - 1, |lists|, k);
      MembersConcat(Rounds(lists, idx - 1), RoundPart(lists, idx - 1, |lists|), keys[k]);
      if idx <= |lists[k]| {
        assert lists[k][..idx - 1] + [lists[k][idx - 1]] == lists[k][..idx];
      }
    }
  }

  /** What has been selected from one group is a prefix of its time order. */
  lemma SelectedOfGroup(lists: seq<seq<Rec>>, keys: seq<Key>, idx: nat, j: nat, k: nat)
    requires Keyed(lists, keys) && k < |lists| && j <= |lists|
    ensures Members(Rounds(lists, idx) + RoundPart(lists, idx, j), keys[k]) == lists[k][..Taken(lists, idx, j, k)]
  {
    hide Members;
    hide Rounds;
    hide RoundPart;
    RoundsOfGroup(lists, keys, idx, k);
    PartOfGroup(lists, keys, idx, j, k);
    MembersConcat(Rounds(lists, idx), RoundPart(lists, idx, j), keys[k]);
    if idx < |lists[k]| {
      assert lists[k][..idx] + [lists[k][idx]] == lists[k][..idx + 1];
    }
  }

  lemma PartStep(lists: seq<seq<Rec>>, idx: nat, j: nat)
    requires j < |lists|
    ensures RoundPart(lists, idx, 0) == []
    ensures RoundPart(lists, idx, j + 1)
         == RoundPart(lists, idx, j) + (if idx < |lists[j]| then [lists[j][idx]] else [])
  {
  }

  lemma RoundStep(lists: seq<seq<Rec>>, idx: nat)
    ensures Rounds(lists, 0) == []
    ensures Rounds(lists, idx + 1) == Rounds(lists, idx) + RoundPart(lists, idx, |lists|)
    ensures RoundPart(lists, idx, 0) == []
    ensures |Rounds(lists, idx)| + |RoundPart(lists, idx, |lists|)| + Left(lists, idx + 1) == Total(lists)
    ensures Left(lists, idx) == |RoundPart(lists, idx, |lists|)| + Left(lists, idx + 1)
  {
    hide RoundPart;
    RoundsSize(lists, idx);
    RoundTakes(lists, idx);
    NoPart(lists, idx);
  }

  lemma NoPart(lists: seq<seq<Rec>>, idx: nat)
    ensures RoundPart(lists, idx, 0) == []
  {
  }

  /** Whether some group still has a record for this round. */
  predicate Remains(lists: seq<seq<Rec>>, idx: nat) {
    exists k :: 0 <= k < |lists| && idx < |lists[k]|
  }

  /** The sampling loop over prepared groups. */
  method Sample(lists: seq<seq<Rec>>, limit: int) returns (selected: seq<Rec>, ghost idx: nat, ghost j: nat)
    ensures j <= |lists|
    ensures selected == Rounds(lists, idx) + RoundPart(lists, idx, j)
    ensures |selected| == Min(if limit < 0 then 0 else limit, Total(lists))
  {
    hide Left;
    hide Total;
    hide Rounds;
    hide RoundPart;
    selected := [];
    idx, j := 0, 0;
    var round := 0;
    RoundStep(lists, 0);
    while |selected| < limit && Remains(lists, round)
      invariant selected == Rounds(lists, round)
      invariant |selected| <= limit || selected == []
      decreases Left(lists, round)
    {
      RoundStep(lists, round);
      RoundPartMore(lists, round, |lists|);
      var k := 0;
      while k < |lists|
        invariant 0 <= k <= |lists|
        invariant selected == Rounds(lists, round) + RoundPart(lists, round, k)
        invariant |selected| < limit
      {
        PartStep(lists, round, k);
        if round < |lists[k]| {
          selected := selected + [lists[k][round]];
          if |selected| >= limit {
            idx, j := round, k + 1;
            PartPrefix(lists, round, k + 1);
            return;
          }
        }
        k := k + 1;
      }
      round := round + 1;
    }
    idx, j := round, 0;
    RoundStep(lists, round);
    RoundsSize(lists, round);
    if !Remains(lists, round) {
      NothingLeft(lists, round);
    }
  }

  // ---------------------------------------------------------------- the sampler

  lemma OnceEach(a: seq<Key>, key: Key)
    requires Distinct(a)
    ensures multiset(a)[key] <= 1
  {
    if key in a {
      var p :| 0 <= p < |a| && a[p] == key;
      assert a == a[..p] + [key] + a[p + 1..];
      assert key !in a[..p] && key !in a[p + 1..];
    }
  }

  lemma DistinctReordered(a: seq<Key>, b: seq<Key>)
    requires Distinct(a) && multiset(a) == multiset(b)
    ensures Distinct(b)
    ensures forall key :: key in a <==> key in b
  {
    forall key ensures key in a <==> key in b {
      assert key in a <==> key in multiset(a);
      assert key in b <==> key in multiset(b);
    }
    forall i, j | 0 <= i < j < |b| ensures b[i] != b[j] {
      OnceEach(a, b[i]);
      assert b == b[..i] + [b[i]] + b[i + 1..];
      assert b[j] == b[i + 1..][j - i - 1];
    }
  }

  /** The sorted group of a key holds records of that key only. */
  lemma InOrderCarries(conns: seq<Rec>, key: Key)
    ensures Carries(InOrder(conns, key), key)
    ensures |InOrder(conns, key)| == |Members(conns, key)|
  {
    SortSize(Members(conns, key));
    SortSorted(Members(conns, key), TS);
    var sorted := InOrder(conns, key);
    forall m | 0 <= m < |sorted| ensures sorted[m].GroupKey() == key {
      assert sorted[m] in multiset(sorted);
      assert sorted[m] in Members(conns, key);
    }
  }

  /** What was selected from a group is a prefix of the group in time order. */
  ghost predicate PrefixOfGroup(conns: seq<Rec>, selected: seq<Rec>, key: Key) {
    Members(selected, key) <= InOrder(conns, key)
  }

  /** A group is more than one record behind another only when it is used up. */
  ghost predicate EvenlySpread(conns: seq<Rec>, selected: seq<Rec>, a: Key, b: Key) {
    |Members(selected, a)| > |Members(selected, b)| + 1 ==> |Members(selected, b)| == |Members(conns, b)|
  }

  lemma ListsKeyed(keys: seq<Key>, conns: seq<Rec>)
    requires Distinct(keys)
    ensures Keyed(Lists(keys, conns), keys)
  {
    hide Carries;
    var lists := Lists(keys, conns);
    forall i | 0 <= i < |keys| ensures Carries(lists[i], keys[i]) {
      InOrderCarries(conns, keys[i]);
    }
  }

  lemma {:induction false} PartSeen(lists: seq<seq<Rec>>, keys: seq<Key>, idx: nat, j: nat, key: Key)
    requires Keyed(lists, keys) && j <= |lists| && key !in keys
    ensures Members(RoundPart(lists, idx, j), key) == []
  {
    hide Members;
    if j == 0 {
      NoMembers([], key);
    } else {
      PartSeen(lists, keys, idx, j - 1, key);
      assert Carries(lists[j - 1], keys[j - 1]);
      var next := if idx < |lists[j - 1]| then [lists[j - 1][idx]] else [];
      MembersConcat(RoundPart(lists, idx, j - 1), next, key);
      NoMembers(next, key);
    }
  }

  lemma {:induction false} RoundsSeen(lists: seq<seq<Rec>>, keys: seq<Key>, idx: nat, key: Key)
    requires Keyed(lists, keys) && key !in keys
    ensures Members(Rounds(lists, idx), key) == []
  {
    hide Members;
    if idx == 0 {
      NoMembers([], key);
    } else {
      RoundsSeen(lists, keys, idx - 1, key);
      PartSeen(lists, keys, idx - 1, |lists|, key);
      MembersConcat(Rounds(lists, idx - 1), RoundPart(lists, idx - 1, |lists|), key);
    }
  }

  /** How much one key contributes, for keys with and without a group. */
  lemma {:induction false} Contribution(keys: seq<Key>, conns: seq<Rec>, idx: nat, j: nat, key: Key)
    requires Distinct(keys) && (forall k :: k in keys <==> Seen(conns, k)) && j <= |keys|
    ensures
      var lists := Lists(keys, conns);
      var share := Members(Rounds(lists, idx) + RoundPart(lists, idx, j), key);
      && share <= InOrder(conns, key)
      && |share| <= idx + 1
      && (|share| < idx ==> |share| == |Members(conns, key)|)
  {
    hide Members;
    hide InOrder;
    hide Seen;
    hide Rounds;
    hide RoundPart;
    var lists := Lists(keys, conns);
    ListsKeyed(keys, conns);
    InOrderCarries(conns, key);
    if key in keys {
      var k :| 0 <= k < |keys| && keys[k] == key;
      SelectedOfGroup(lists, keys, idx, j, k);
    } else {
      NoMembers(conns, key);
      RoundsSeen(lists, keys, idx, key);
      PartSeen(lists, keys, idx, j, key);
      MembersConcat(Rounds(lists, idx), RoundPart(lists, idx, j), key);
    }
  }

  /**
   With no limit, every record in file order. With a limit, exactly as many as the limit and the
   file allow, each group contributing a time-ordered prefix and none starved by another. `rank`
   stands for the order in which `sorted` puts the keys.
   */
  method Select(conns: seq<Rec>, limit: Option<int>, rank: Key -> real) returns (selected: seq<Rec>)
    ensures limit.None? ==> selected == conns
    ensures limit.Some? ==> |selected| == Min(if limit.value < 0 then 0 else limit.value, |conns|)
    ensures limit.Some? ==> forall key :: PrefixOfGroup(conns, selected, key)
    ensures limit.Some? ==> forall a, b :: EvenlySpread(conns, selected, a, b)
  {
    if limit.None? {
      return conns;
    }
    var order, groups := GroupConns(conns);
    var keys := StableSort(order, rank);
    SortSorted(order, rank);
    DistinctReordered(order, keys);
    var lists := seq(|keys|, i requires 0 <= i < |keys| && keys[i] in groups => StableSort(groups[keys[i]], TS));
    assert lists == Lists(keys, conns);
    assert forall r :: r in conns ==> Seen(conns, r.GroupKey());
    ListsHoldAll(keys, conns);
    hide Members;
    hide Seen;
    hide Lists;
    ghost var idx, j;
    selected, idx, j := Sample(lists, limit.value);
    forall key ensures
        && PrefixOfGroup(conns, selected, key)
        && |Members(selected, key)| <= idx + 1
        && (|Members(selected, key)| < idx ==> |Members(selected, key)| == |Members(conns, key)|)
    {
      Contribution(keys, conns, idx, j, key);
    }
  }
}
