/** `check` itself: its loops, the tables they fill, and the report. */
module WarrantGate {
  import opened Seqs
  import opened Warrant
  import opened WarrantTheorems
  import M = Markings

  // ---------------------------------------------------------------- tables

  ghost predicate Indexed(flows: seq<M.FlowRec>, byId: map<string, M.FlowRec>) {
    && (forall id :: id in byId <==> id in M.IdsOf(flows))
    && forall id :: id in byId ==> ById(flows, id) == Some(byId[id])
  }

  lemma IndexedSnoc(flows: seq<M.FlowRec>, f: M.FlowRec, byId: map<string, M.FlowRec>)
    requires Indexed(flows, byId)
    ensures Indexed(flows + [f], byId[f.id := f])
    ensures Dedup(IdList(flows + [f])) == Dedup(IdList(flows)) + (if f.id in byId then [] else [f.id])
  {
    var all := flows + [f];
    assert all[..|flows|] == flows;
    forall id ensures id in M.IdsOf(all) <==> id == f.id || id in M.IdsOf(flows) {
    }
    OrderSnoc(flows, f);
  }

  lemma OrderSnoc(flows: seq<M.FlowRec>, f: M.FlowRec)
    ensures Dedup(IdList(flows + [f])) == Dedup(IdList(flows)) + (if f.id in M.IdsOf(flows) then [] else [f.id])
  {
    assert IdList(flows + [f]) == IdList(flows) + [f.id];
    assert (IdList(flows) + [f.id])[..|flows|] == IdList(flows);
    IdsListed(flows);
  }

  /** Flows by id, a later flow replacing an earlier one; `order` is the order of a dict's keys. */
  method Index(flows: seq<M.FlowRec>) returns (byId: map<string, M.FlowRec>, order: seq<string>)
    ensures Indexed(flows, byId)
    ensures order == Dedup(IdList(flows))
  {
    byId, order := map[], [];
    assert Indexed([], byId) && Dedup(IdList([])) == [];
    hide Indexed;
    hide Dedup;
    hide IdList;
    for i := 0 to |flows|
      invariant Indexed(flows[..i], byId)
      invariant order == Dedup(IdList(flows[..i]))
    {
      var f := flows[i];
      assert flows[..i + 1] == flows[..i] + [f];
      IndexedSnoc(flows[..i], f, byId);
      if f.id !in byId {
        order := order + [f.id];
      }
      byId := byId[f.id := f];
    }
    assert flows[..|flows|] == flows;
  }

  lemma IdsListed(flows: seq<M.FlowRec>)
    ensures forall id :: id in IdList(flows) <==> id in M.IdsOf(flows)
  {
    forall id ensures id in IdList(flows) <==> id in M.IdsOf(flows) {
      if id in IdList(flows) {
        var i :| 0 <= i < |flows| && IdList(flows)[i] == id;
        assert flows[i] in flows;
      }
      if id in M.IdsOf(flows) {
        var f :| f in flows && f.id == id;
        var i :| 0 <= i < |flows| && flows[i] == f;
        assert IdList(flows)[i] == id;
      }
    }
  }

  lemma {:induction false} RepeatMeans(c: Claim, renders: seq<string>, id: string)
    ensures Repeat(c, renders, id) != [] <==> id in renders
    ensures forall x :: x in Repeat(c, renders, id) <==> x == c && id in renders
  {
    if renders != [] {
      var n := |renders| - 1;
      assert renders == renders[..n] + [renders[n]];
      RepeatMeans(c, renders[..n], id);
    }
  }

  /** A flow has licences exactly when some claim renders it, and they are the claims that do. */
  lemma {:induction false} LicencesMean(claims: seq<Claim>, id: string)
    ensures Licences(claims, id) != [] <==> IsLicensed(claims, id)
    ensures forall c :: c in Licences(claims, id) <==> c in claims && id in c.renders
  {
    if claims != [] {
      var n := |claims| - 1;
      assert claims == claims[..n] + [claims[n]];
      LicencesMean(claims[..n], id);
      RepeatMeans(claims[n], claims[n].renders, id);
    }
  }

  function Entry(licensed: map<string, seq<Claim>>, id: string): seq<Claim> {
    if id in licensed then licensed[id] else []
  }

  /** `licensed.setdefault(fid, []).append(c)` for each flow a claim renders. */
  method LicenseOne(c: Claim, was: map<string, seq<Claim>>) returns (licensed: map<string, seq<Claim>>)
    requires forall id :: id in was ==> was[id] != []
    ensures forall id :: Entry(licensed, id) == Entry(was, id) + Repeat(c, c.renders, id)
    ensures forall id :: id in licensed ==> licensed[id] != []
  {
    hide Repeat;
    hide Entry;
    licensed := was;
    EmptyLicences();
    for j := 0 to |c.renders|
      invariant forall id :: Entry(licensed, id) == Entry(was, id) + Repeat(c, c.renders[..j], id)
      invariant forall id :: id in licensed ==> licensed[id] != []
    {
      var fid := c.renders[j];
      forall id
        ensures Repeat(c, c.renders[..j + 1], id) == Repeat(c, c.renders[..j], id) + (if fid == id then [c] else [])
      {
        RepeatSnoc(c, c.renders, j, id);
      }
      AppendEntry(licensed, fid, c);
      licensed := licensed[fid := Entry(licensed, fid) + [c]];
    }
    assert c.renders[..|c.renders|] == c.renders;
  }

  lemma AppendEntry(licensed: map<string, seq<Claim>>, fid: string, c: Claim)
    ensures forall id :: Entry(licensed[fid := Entry(licensed, fid) + [c]], id)
                      == Entry(licensed, id) + (if fid == id then [c] else [])
  {
  }

  method License(claims: seq<Claim>) returns (licensed: map<string, seq<Claim>>)
    ensures forall id :: Entry(licensed, id) == Licences(claims, id)
    ensures forall id :: id in licensed <==> IsLicensed(claims, id)
  {
    hide Licences;
    hide Repeat;
    hide IsLicensed;
    licensed := map[];
    EmptyLicences();
    for i := 0 to |claims|
      invariant forall id :: Entry(licensed, id) == Licences(claims[..i], id)
      invariant forall id :: id in licensed ==> licensed[id] != []
    {
      licensed := LicenseOne(claims[i], licensed);
      forall id ensures Licences(claims[..i + 1], id)
                     == Licences(claims[..i], id) + Repeat(claims[i], claims[i].renders, id) {
        LicencesSnoc(claims, i, id);
      }
    }
    assert claims[..|claims|] == claims;
    forall id ensures id in licensed <==> IsLicensed(claims, id) {
      LicencesMean(claims, id);
    }
  }

  lemma EmptyLicences()
    ensures forall id :: Licences([], id) == []
    ensures forall c, id :: Repeat(c, [], id) == []
  {
  }

  lemma RepeatSnoc(c: Claim, renders: seq<string>, j: nat, id: string)
    requires j < |renders|
    ensures Repeat(c, renders[..j + 1], id) == Repeat(c, renders[..j], id) + (if renders[j] == id then [c] else [])
  {
    assert renders[..j + 1][..j] == renders[..j];
  }

  lemma LicencesSnoc(claims: seq<Claim>, i: nat, id: string)
    requires i < |claims|
    ensures Licences(claims[..i + 1], id) == Licences(claims[..i], id) + Repeat(claims[i], claims[i].renders, id)
  {
    assert claims[..i + 1][..i] == claims[..i];
  }

  // ---------------------------------------------------------------- loops over findings

  /** `for x in xs: add(...)` */
  method Collect<T>(xs: seq<T>, f: T -> Findings) returns (out: Findings)
    ensures out == Each(xs, f)
  {
    out := [];
    for i := 0 to |xs|
      invariant out == Each(xs[..i], f)
    {
      assert xs[..i + 1][..i] == xs[..i];
      out := out + f(xs[i]);
    }
    assert xs[..|xs|] == xs;
  }

  method CheckStructure(claims: seq<Claim>, sources: set<string>, ids: set<string>) returns (out: Findings)
    ensures out == Structure(claims, sources, ids)
  {
    hide StructureOf;
    out := [];
    var seen: set<string> := {};
    for i := 0 to |claims|
      invariant out == Structure(claims[..i], sources, ids)
      invariant seen == ClaimIds(claims[..i])
    {
      assert claims[..i + 1] == claims[..i] + [claims[i]];
      assert claims[..i + 1][..i] == claims[..i];
      out := out + StructureOf(claims[i], claims[i].id in seen, sources, ids);
      seen := seen + {claims[i].id};
    }
    assert claims[..|claims|] == claims;
  }

  /** The `(claim id, path)` pairs that some rendered flow carries. */
  method CollectSatisfied(claims: seq<Claim>, flows: seq<M.FlowRec>, byId: map<string, M.FlowRec>)
    returns (satisfied: set<(string, string)>)
    requires Indexed(flows, byId)
    ensures satisfied == SatisfiedPairs(claims, flows)
  {
    satisfied := {};
    hide Carried;
    for i := 0 to |claims|
      invariant satisfied == SatisfiedPairs(claims[..i], flows)
    {
      var c := claims[i];
      var own := SatisfiedBy(c, flows, byId);
      assert claims[..i + 1] == claims[..i] + [c];
      assert SatisfiedPairs(claims[..i + 1], flows) == SatisfiedPairs(claims[..i], flows) + own;
      satisfied := satisfied + own;
    }
    assert claims[..|claims|] == claims;
  }

  method SatisfiedBy(c: Claim, flows: seq<M.FlowRec>, byId: map<string, M.FlowRec>)
    returns (own: set<(string, string)>)
    requires Indexed(flows, byId)
    ensures own == set e | e in c.expects && Carried(c, e.path, flows) :: (c.id, e.path)
  {
    own := {};
    for j := 0 to |c.renders|
      invariant own == set e | e in c.expects && CarriedBy(c.renders[..j], e.path, byId) :: (c.id, e.path)
    {
      var fid := c.renders[j];
      assert c.renders[..j + 1] == c.renders[..j] + [fid];
      if fid in byId {
        var f := byId[fid];
        var more: set<(string, string)> := {};
        for k := 0 to |c.expects|
          invariant more == set e | e in c.expects[..k] && e.path in f.at :: (c.id, e.path)
        {
          assert c.expects[..k + 1] == c.expects[..k] + [c.expects[k]];
          if c.expects[k].path in f.at {
            more := more + {(c.id, c.expects[k].path)};
          }
        }
        assert c.expects[..|c.expects|] == c.expects;
        own := own + more;
      }
    }
    assert c.renders[..|c.renders|] == c.renders;
    assert forall path :: CarriedBy(c.renders, path, byId) <==> Carried(c, path, flows);
  }

  predicate CarriedBy(renders: seq<string>, path: string, byId: map<string, M.FlowRec>) {
    exists id :: id in renders && id in byId && path in byId[id].at
  }

  // ---------------------------------------------------------------- censuses

  method FieldMix(fm: Option<M.FieldMarkings>, invalid: set<nat>, facts: seq<M.Fact>) returns (mix: M.Mix)
    ensures forall c :: M.Get(mix, c) == M.Count(facts, M.Global(fm, invalid), c)
  {
    mix := map[];
    for i := 0 to |facts|
      invariant forall c :: M.Get(mix, c) == M.Count(facts[..i], M.Global(fm, invalid), c)
    {
      var f := facts[i];
      assert facts[..i + 1][..i] == facts[..i];
      var mk := M.ResolveMarking(fm, f.flowId, f.path);
      var key;
      if mk.None? && M.IsAleatoric(fm, f.path) {
        key := M.Aleatoric;
      } else {
        if mk.Some? && mk.value in invalid {
          mk := None;
        }
        key := M.Marked(if mk.Some? then fm.value.marks[mk.value].icd203 else M.Fabricated);
      }
      assert key == M.Global(fm, invalid)(f);
      mix := mix[key := M.Get(mix, key) + 1];
    }
    assert facts[..|facts|] == facts;
  }

  method StanceMix(cs: ClaimSet, order: seq<string>, licensed: map<string, seq<Claim>>) returns (mix: map<Key, nat>)
    requires forall id :: Entry(licensed, id) == Licences(cs.claims, id)
    requires forall id :: id in licensed <==> IsLicensed(cs.claims, id)
    ensures forall key :: Get(mix, key) == CountKey(cs, order, key)
  {
    hide Licences;
    hide Best;
    hide IsLicensed;
    mix := map[];
    for i := 0 to |order|
      invariant forall key :: Get(mix, key) == CountKey(cs, order[..i], key)
    {
      var fid := order[i];
      assert order[..i + 1][..i] == order[..i];
      LicencesMean(cs.claims, fid);
      assert fid in licensed ==> licensed[fid] == Entry(licensed, fid);
      var key :=
        if fid in licensed then Licensed(Best(licensed[fid]).stance)
        else if fid in cs.illustrative then Illustrative
        else UNLICENSED;
      assert key == KeyOf(cs, fid);
      mix := mix[key := Get(mix, key) + 1];
    }
    assert order[..|order|] == order;
  }

  method CountAccounted(claims: seq<Claim>) returns (n: nat)
    ensures n == AccountedCount(claims)
  {
    n := 0;
    for i := 0 to |claims|
      invariant n == AccountedCount(claims[..i])
    {
      assert claims[..i + 1][..i] == claims[..i];
      if IsAccounted(claims[i]) {
        n := n + 1;
      }
    }
    assert claims[..|claims|] == claims;
  }

  /** The marks that fail their sourcing check, by position. */
  method CollectInvalid(cs: ClaimSet) returns (invalid: set<nat>)
    ensures invalid == InvalidMarks(cs)
  {
    invalid := {};
    var marks := Marks(cs);
    hide Unsourced;
    for k: nat := 0 to |marks|
      invariant invalid == set j: nat | j < k && Unsourced(marks[j], cs.claims, SourceIds(cs.sources))
    {
      if Unsourced(marks[k], cs.claims, SourceIds(cs.sources)) {
        invalid := invalid + {k};
      }
    }
  }

  // ---------------------------------------------------------------- what a passing report says

  lemma {:induction false} KeysPartition(cs: ClaimSet, ids: seq<string>)
    ensures CountKey(cs, ids, Licensed(Stance.Observed)) + CountKey(cs, ids, Licensed(TechnologyDefault))
          + CountKey(cs, ids, Licensed(Stance.Judgment)) + CountKey(cs, ids, Licensed(Stance.Assumption))
          + CountKey(cs, ids, Licensed(SourceUnresolved)) + CountKey(cs, ids, Illustrative)
          + CountKey(cs, ids, UNLICENSED) == |ids|
  {
    if ids != [] {
      hide KeyOf;
      KeysPartition(cs, ids[..|ids| - 1]);
      match KeyOf(cs, ids[|ids| - 1])
      case Licensed(s) =>
        assert s.Observed? || s.TechnologyDefault? || s.Judgment? || s.Assumption? || s.SourceUnresolved?;
      case Illustrative =>
      case UNLICENSED =>
    }
  }

  lemma {:induction false} KeyAbsent(cs: ClaimSet, ids: seq<string>, key: Key)
    requires forall id :: id in ids ==> KeyOf(cs, id) != key
    ensures CountKey(cs, ids, key) == 0
  {
    if ids != [] {
      var n := |ids| - 1;
      assert ids == ids[..n] + [ids[n]];
      KeyAbsent(cs, ids[..n], key);
    }
  }

  lemma {:induction false} DedupDistinct(xs: seq<string>)
    requires forall i, j :: 0 <= i < j < |xs| ==> xs[i] != xs[j]
    ensures Dedup(xs) == xs
  {
    if xs != [] {
      var n := |xs| - 1;
      DedupDistinct(xs[..n]);
      assert xs == xs[..n] + [xs[n]];
    }
  }

  lemma {:induction false} AllAccounted(claims: seq<Claim>)
    requires forall c :: c in claims ==> IsAccounted(c)
    ensures AccountedCount(claims) == |claims|
  {
    if claims != [] {
      var n := |claims| - 1;
      assert claims == claims[..n] + [claims[n]];
      AllAccounted(claims[..n]);
    }
  }

  function StanceTotal(mix: map<Key, nat>): nat {
    Get(mix, Licensed(Stance.Observed)) + Get(mix, Licensed(TechnologyDefault)) + Get(mix, Licensed(Stance.Judgment))
      + Get(mix, Licensed(Stance.Assumption)) + Get(mix, Licensed(SourceUnresolved)) + Get(mix, Illustrative)
      + Get(mix, UNLICENSED)
  }

  function FieldTotal(mix: M.Mix): nat {
    M.Get(mix, M.Aleatoric) + M.Get(mix, M.Marked(M.Observed)) + M.Get(mix, M.Marked(M.Judgment))
      + M.Get(mix, M.Marked(M.Assumption)) + M.Get(mix, M.Marked(M.Fabricated))
  }

  /** The census of a warranted reconstruction: nothing unlicensed, nothing unaccounted, every flow counted once. */
  lemma {:induction false} WarrantedCensus(cs: ClaimSet, flows: seq<M.FlowRec>, lib: Library)
    requires Warranted(cs, flows, lib)
    ensures
      var ids := Dedup(IdList(flows));
      && ids == IdList(flows) && |ids| == |flows|
      && CountKey(cs, ids, UNLICENSED) == 0
      && CountKey(cs, ids, Licensed(SourceUnresolved)) == 0
      && AccountedCount(cs.claims) == |cs.claims|
      && Observations(cs, flows) > 0
  {
    hide Expected;
    hide Quantified;
    hide WellMarked;
    hide MarksHold;
    hide PredictionsHold;
    hide Observations;
    hide MarkedObserved;
    var ids := IdList(flows);
    DedupDistinct(ids);
    IdsListed(flows);
    forall id | id in ids ensures KeyOf(cs, id) != UNLICENSED && KeyOf(cs, id) != Licensed(SourceUnresolved) {
      var f :| f in flows && f.id == id;
      LicencesMean(cs.claims, id);
      if Licences(cs.claims, id) != [] {
        assert AccountedFor(Best(Licences(cs.claims, id)));
      }
    }
    KeyAbsent(cs, ids, UNLICENSED);
    KeyAbsent(cs, ids, Licensed(SourceUnresolved));
    forall c | c in cs.claims ensures IsAccounted(c) {
      assert AccountedFor(c);
    }
    AllAccounted(cs.claims);
    ObservationsMean(cs, flows);
  }

  /**
   The gate. The report passes exactly when the claim set is an exercise or the flows are warranted;
   its field mix always adds up to the facts; and a passing reconstruction has no unlicensed flow,
   no unaccounted claim, every flow in one stance, and at least one observed fact.
   */
  method Check(cs: ClaimSet, flows: seq<M.FlowRec>, lib: Library) returns (report: Report)
    ensures report.findings == Conclude(cs, AllFindings(cs, flows, lib))
    ensures report.Ok() <==> cs.exercise || Warranted(cs, flows, lib)
    ensures FieldTotal(report.fieldMix) == |M.AllFacts(flows)| == report.networkFacts
    ensures forall c :: M.Get(report.fieldMix, c)
              == M.Count(M.AllFacts(flows), M.Global(cs.fieldMarkings, InvalidMarks(cs)), c)
    ensures forall key :: Get(report.stanceMix, key) == CountKey(cs, Dedup(IdList(flows)), key)
    ensures report.claimsUnaccounted == |cs.claims| - AccountedCount(cs.claims)
    ensures report.Ok() && !cs.exercise ==>
      && Get(report.stanceMix, UNLICENSED) == 0 && Get(report.stanceMix, Licensed(SourceUnresolved)) == 0
      && StanceTotal(report.stanceMix) == |flows|
      && report.claimsUnaccounted == 0
      && M.Get(report.fieldMix, M.Marked(M.Observed)) > 0
  {
    hide Warranted;
    hide HasFail;
    hide AllFindings;
    hide Conclude;
    hide ClassFindings;
    hide Dedup;
    hide IdList;
    hide M.AllFacts;
    hide M.Count;
    hide M.Get;
    hide Get;
    hide CountKey;
    hide AccountedCount;
    hide InvalidMarks;
    hide M.Global;
    var mix := CensusFields(cs, flows);
    var stances, unaccounted := CensusFlows(cs, flows);
    var sections := CheckSections(cs, flows, lib);
    var findings := Conclude(cs, sections + ClassFindings(cs, M.Get(mix, M.Marked(M.Observed)), lib));
    report := Report(findings, stances, mix, unaccounted, |M.AllFacts(flows)|);
    SectionsAndClass(cs, flows, lib, sections);
    PassMeansWarranted(cs, flows, lib);
    if report.Ok() && !cs.exercise {
      WarrantedCensus(cs, flows, lib);
    }
  }

  lemma {:induction false} SectionsAndClass(cs: ClaimSet, flows: seq<M.FlowRec>, lib: Library, sections: Findings)
    requires sections ==
      Structure(cs.claims, SourceIds(cs.sources), M.IdsOf(flows)) + ForwardFindings(cs, flows)
      + ClaimFindings(cs, flows, lib) + Each(Dedup(Rendered(cs.claims)), Sourcing(cs)) + MarkingFindings(cs, flows)
    ensures sections + ClassFindings(cs, Observations(cs, flows), lib) == AllFindings(cs, flows, lib)
  {
  }

  method CensusFields(cs: ClaimSet, flows: seq<M.FlowRec>) returns (mix: M.Mix)
    ensures forall c :: M.Get(mix, c)
              == M.Count(M.AllFacts(flows), M.Global(cs.fieldMarkings, InvalidMarks(cs)), c)
    ensures FieldTotal(mix) == |M.AllFacts(flows)|
  {
    hide M.AllFacts;
    hide M.Count;
    hide M.Get;
    hide InvalidMarks;
    var facts := M.AllFacts(flows);
    var invalid := CollectInvalid(cs);
    mix := FieldMix(cs.fieldMarkings, invalid, facts);
    M.MixIsTotal(facts, M.Global(cs.fieldMarkings, invalid));
  }

  method CensusFlows(cs: ClaimSet, flows: seq<M.FlowRec>) returns (mix: map<Key, nat>, unaccounted: nat)
    ensures forall key :: Get(mix, key) == CountKey(cs, Dedup(IdList(flows)), key)
    ensures StanceTotal(mix) == |Dedup(IdList(flows))|
    ensures unaccounted == |cs.claims| - AccountedCount(cs.claims)
  {
    hide CountKey;
    hide Get;
    hide Dedup;
    var byId, order := Index(flows);
    var licensed := License(cs.claims);
    mix := StanceMix(cs, order, licensed);
    KeysPartition(cs, order);
    var accounted := CountAccounted(cs.claims);
    unaccounted := |cs.claims| - accounted;
  }

  /** Every section before the artifact class. */
  method CheckSections(cs: ClaimSet, flows: seq<M.FlowRec>, lib: Library) returns (out: Findings)
    ensures out ==
      Structure(cs.claims, SourceIds(cs.sources), M.IdsOf(flows)) + ForwardFindings(cs, flows)
      + ClaimFindings(cs, flows, lib) + Each(Dedup(Rendered(cs.claims)), Sourcing(cs)) + MarkingFindings(cs, flows)
  {
    hide Structure;
    hide Each;
    hide Dedup;
    hide DupIds;
    hide Rendered;
    hide SatisfiedPairs;
    hide M.AllFacts;
    var facts := M.AllFacts(flows);
    var byId, _ := Index(flows);
    out := CheckStructure(cs.claims, SourceIds(cs.sources), M.IdsOf(flows));
    var a := Collect(Dedup(DupIds(flows, |flows|)), DUPLICATE);
    var b := Collect(Dedup(cs.illustrative), BothWays(cs.claims));
    var c := Collect(Dedup(cs.illustrative), NotThere(M.IdsOf(flows)));
    var d := Collect(flows, Unlicensed(cs));
    out := out + (a + b + c + d);
    a := Collect(cs.claims, Backward);
    b := Collect(cs.claims, Conflict);
    c := Collect(cs.claims, Violations(flows, lib));
    var satisfied := CollectSatisfied(cs.claims, flows, byId);
    d := Collect(cs.claims, Vacuous(satisfied));
    var e := Collect(cs.claims, Quantity(flows, lib));
    out := out + (a + b + c + d + e);
    a := Collect(Dedup(Rendered(cs.claims)), Sourcing(cs));
    out := out + a;
    b := Collect(Marks(cs), MarkFindings(cs, facts));
    c := Collect(facts, ShadowFinding(cs.fieldMarkings));
    d := Collect(cs.predictions, PredictionFinding(cs, flows));
    out := out + (b + c + d);
  }
}
