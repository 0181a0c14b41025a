/** What a PASS of the warrant gate means. */
module WarrantTheorems {
  import opened Seqs
  import opened Warrant
  import M = Markings

  // ---------------------------------------------------------------- the meaning, stated without the gate

  ghost predicate UniqueClaims(claims: seq<Claim>) {
    forall i, j :: 0 <= i < j < |claims| ==> claims[i].id != claims[j].id
  }

  ghost predicate IsLicensed(claims: seq<Claim>, id: string) {
    exists c :: c in claims && id in c.renders
  }

  /** A citation where one is due, none on an assumption, and only to listed sources. */
  ghost predicate Cited(c: Claim, sources: seq<Source>) {
    && (NeedsCitation(c.stance) ==> c.source != "" && c.quote != "")
    && (c.stance.Assumption? ==> c.source == "")
    && (c.source != "" ==> exists s :: s in sources && s.id == c.source)
  }

  ghost predicate RendersFlows(c: Claim, flows: seq<M.FlowRec>) {
    forall id :: id in c.renders ==> exists f :: f in flows && f.id == id
  }

  /** Every flow is licensed or illustrative and never both; nothing illustrative is missing. */
  ghost predicate Licensing(cs: ClaimSet, flows: seq<M.FlowRec>) {
    && (forall f :: f in flows ==> (IsLicensed(cs.claims, f.id) <==> f.id !in cs.illustrative))
    && forall id :: id in cs.illustrative ==> exists f :: f in flows && f.id == id
  }

  /** Rendered or given a reason; what a source left open is not rendered. */
  ghost predicate AccountedFor(c: Claim) {
    if c.stance.SourceUnresolved? then c.renders == [] else c.renders != [] || c.unmodelledReason != ""
  }

  /** No licensed flow contradicts an expectation, and some licensed flow meets it. */
  ghost predicate Expected(c: Claim, flows: seq<M.FlowRec>, lib: Library) {
    && (forall f, e :: f in flows && f.id in c.renders && e in c.expects && e.path in f.at ==>
          Meets(e.want, f.at[e.path], lib))
    && forall e :: e in c.expects ==> exists f :: f in flows && f.id in c.renders && e.path in f.at
  }

  /** The floor or ceiling in scope is met by what the capture measures. */
  ghost predicate Quantified(c: Claim, flows: seq<M.FlowRec>, lib: Library) {
    c.quantifier.Some? && c.unmodelledReason == "" && c.quantifier.value.unit !in UNMEASURABLE ==>
      var q := c.quantifier.value;
      && Measure(q.unit, flows, lib).Some?
      && (q.kind.Floor? ==> q.value <= Measure(q.unit, flows, lib).value)
      && (q.kind.Ceiling? ==> Measure(q.unit, flows, lib).value <= q.value)
  }

  /** A mark addresses something, and is exactly as well sourced as it says. */
  ghost predicate WellMarked(m: M.Mark, cs: ClaimSet, facts: seq<M.Fact>) {
    && (forall sel :: sel in m.selectors ==> exists f :: f in facts && M.SelectorScore(sel, f.flowId, f.path).Some?)
    && (m.icd203.Observed? || m.icd203.Judgment? ==>
          FirstClaim(cs.claims, m.claimRef).Some? && m.claimRef != ""
          && var c := FirstClaim(cs.claims, m.claimRef).value;
             c.quote != "" && exists s :: s in cs.sources && s.id == c.source)
    && (m.icd203.Observed? ==> 3 <= m.pedigree && m.derivation in {Some(M.RetrievedFrom), Some(M.ImportedFrom)})
    && (m.icd203.Fabricated? ==> m.claimRef == "" && m.pedigree == 0)
    && (m.claimRef != "" ==> exists c :: c in cs.claims && c.id == m.claimRef)
  }

  ghost predicate MarkedObserved(fm: Option<M.FieldMarkings>, f: M.Fact) {
    var mk := M.Resolve(fm, f.flowId, f.path);
    mk.Some? && fm.value.marks[mk.value].icd203.Observed?
  }

  ghost predicate IsMarked(fm: Option<M.FieldMarkings>, f: M.Fact) {
    M.Resolve(fm, f.flowId, f.path).Some?
  }

  /** Among the marked facts it renders, if any, one is not already observed. */
  ghost predicate Predicts(p: Prediction, cs: ClaimSet, flows: seq<M.FlowRec>) {
    var facts := RenderedFacts(flows, p.renders);
    (exists f :: f in facts && IsMarked(cs.fieldMarkings, f)) ==>
      exists f :: f in facts && IsMarked(cs.fieldMarkings, f) && !MarkedObserved(cs.fieldMarkings, f)
  }

  /** At least one observed fact, one rendered claim, a summary, and not mostly gaps. */
  ghost predicate AboutSomething(cs: ClaimSet, flows: seq<M.FlowRec>) {
    && (exists f :: f in M.AllFacts(flows) && MarkedObserved(cs.fieldMarkings, f))
    && (exists c :: c in cs.claims && c.renders != [])
    && 2 * GapCount(cs.claims) <= |cs.claims|
    && cs.sourceSummary != ""
  }

  ghost predicate ClaimsCited(cs: ClaimSet, flows: seq<M.FlowRec>) {
    forall c :: c in cs.claims ==> Cited(c, cs.sources) && RendersFlows(c, flows)
  }

  ghost predicate ClaimsHold(cs: ClaimSet, flows: seq<M.FlowRec>, lib: Library) {
    forall c :: c in cs.claims ==> AccountedFor(c) && Expected(c, flows, lib) && Quantified(c, flows, lib)
  }

  ghost predicate MarksHold(cs: ClaimSet, flows: seq<M.FlowRec>) {
    forall m :: m in Marks(cs) ==> WellMarked(m, cs, M.AllFacts(flows))
  }

  ghost predicate PredictionsHold(cs: ClaimSet, flows: seq<M.FlowRec>) {
    forall p :: p in cs.predictions ==> Predicts(p, cs, flows)
  }

  ghost predicate Warranted(cs: ClaimSet, flows: seq<M.FlowRec>, lib: Library) {
    && M.DistinctIds(flows)
    && UniqueClaims(cs.claims)
    && Licensing(cs, flows)
    && ClaimsCited(cs, flows)
    && ClaimsHold(cs, flows, lib)
    && MarksHold(cs, flows)
    && PredictionsHold(cs, flows)
    && AboutSomething(cs, flows)
  }

  // ---------------------------------------------------------------- when a list of findings has no failure

  lemma FailConcat(a: Findings, b: Findings)
    ensures HasFail(a + b) <==> HasFail(a) || HasFail(b)
  {
    if HasFail(a) {
      var i :| 0 <= i < |a| && a[i].level.Fail?;
      assert (a + b)[i].level.Fail?;
    }
    if HasFail(b) {
      var i :| 0 <= i < |b| && b[i].level.Fail?;
      assert (a + b)[|a| + i].level.Fail?;
    }
  }

  lemma FailWhen(b: bool, level: Level, code: Code, subject: string)
    ensures HasFail(When(b, level, code, subject)) <==> b && level.Fail?
  {
    if b {
      assert When(b, level, code, subject)[0] == Finding(level, code, subject);
    }
  }

  lemma {:induction false} FailEach<T>(xs: seq<T>, f: T -> Findings)
    ensures HasFail(Each(xs, f)) <==> exists x :: x in xs && HasFail(f(x))
  {
    if xs != [] {
      hide HasFail;
      var n := |xs| - 1;
      assert xs == xs[..n] + [xs[n]];
      FailEach(xs[..n], f);
      FailConcat(Each(xs[..n], f), f(xs[n]));
    } else {
      assert !HasFail([]);
    }
  }

  lemma {:induction false} RenderedMeans(claims: seq<Claim>, id: string)
    ensures id in Rendered(claims) <==> IsLicensed(claims, id)
  {
    if claims != [] {
      var n := |claims| - 1;
      assert claims == claims[..n] + [claims[n]];
      RenderedMeans(claims[..n], id);
    }
  }

  lemma {:induction false} StructureOfFails(c: Claim, seen: bool, sources: seq<Source>, flows: seq<M.FlowRec>)
    ensures HasFail(StructureOf(c, seen, SourceIds(sources), M.IdsOf(flows)))
       <==> seen || !Cited(c, sources) || !RendersFlows(c, flows)
  {
    hide HasFail;
    hide When;
    hide Each;
    var ids := M.IdsOf(flows);
    var a := When(seen, Fail, DuplicateClaimId, c.id);
    var b := When(NeedsCitation(c.stance) && !(c.source != "" && c.quote != ""), Fail, MissingCitation, c.id);
    var d := When(c.stance.Assumption? && c.source != "", Fail, CitationOnAssumption, c.id);
    var e := When(c.source != "" && c.source !in SourceIds(sources), Fail, UnknownSource, c.id);
    var g := Each(c.renders, Dangling(ids));
    FailWhen(seen, Fail, DuplicateClaimId, c.id);
    FailWhen(NeedsCitation(c.stance) && !(c.source != "" && c.quote != ""), Fail, MissingCitation, c.id);
    FailWhen(c.stance.Assumption? && c.source != "", Fail, CitationOnAssumption, c.id);
    FailWhen(c.source != "" && c.source !in SourceIds(sources), Fail, UnknownSource, c.id);
    FailEach(c.renders, Dangling(ids));
    forall id ensures HasFail(Dangling(ids)(id)) <==> id !in ids {
      FailWhen(id !in ids, Fail, DanglingRender, id);
    }
    FailConcat(a, b);
    FailConcat(a + b, d);
    FailConcat(a + b + d, e);
    FailConcat(a + b + d + e, g);
  }

  lemma {:induction false} StructureFails(claims: seq<Claim>, sources: seq<Source>, flows: seq<M.FlowRec>)
    ensures !HasFail(Structure(claims, SourceIds(sources), M.IdsOf(flows)))
       <==> UniqueClaims(claims) && forall c :: c in claims ==> Cited(c, sources) && RendersFlows(c, flows)
  {
    hide HasFail;
    hide StructureOf;
    hide Cited;
    hide RendersFlows;
    if claims == [] {
      NoFindings();
    } else {
      var n := |claims| - 1;
      var before, c := claims[..n], claims[n];
      assert claims == before + [c];
      StructureFails(before, sources, flows);
      StructureOfFails(c, c.id in ClaimIds(before), sources, flows);
      FailConcat(Structure(before, SourceIds(sources), M.IdsOf(flows)),
                 StructureOf(c, c.id in ClaimIds(before), SourceIds(sources), M.IdsOf(flows)));
      UniqueSnoc(before, c);
    }
  }

  lemma NoFindings()
    ensures !HasFail([])
  {
  }

  lemma UniqueSnoc(before: seq<Claim>, c: Claim)
    ensures UniqueClaims(before + [c]) <==> UniqueClaims(before) && c.id !in ClaimIds(before)
  {
    var all := before + [c];
    if c.id in ClaimIds(before) {
      var x :| x in before && x.id == c.id;
      var i :| 0 <= i < |before| && before[i] == x;
      assert all[i].id == all[|before|].id;
    }
    if UniqueClaims(all) {
      forall i, j | 0 <= i < j < |before| ensures before[i].id != before[j].id {
        assert all[i].id != all[j].id;
      }
    }
  }

  // ---------------------------------------------------------------- claims

  lemma BackwardFails(c: Claim)
    ensures HasFail(Backward(c)) || HasFail(Conflict(c)) <==> !AccountedFor(c)
  {
    FailWhen(c.stance.SourceUnresolved? && c.renders != [], Fail, ResolvesOpenQuestion, c.id);
    if !c.stance.SourceUnresolved? && c.renders == [] {
      assert Backward(c)[0].level.Fail? <==> c.unmodelledReason == "";
    }
  }

  lemma {:induction false} ViolationFails(c: Claim, id: string, flows: seq<M.FlowRec>, lib: Library)
    ensures HasFail(ViolationsOn(c, flows, lib)(id))
       <==> exists e :: e in c.expects && ById(flows, id).Some? && e.path in ById(flows, id).value.at
                     && !Meets(e.want, ById(flows, id).value.at[e.path], lib)
  {
    hide HasFail;
    if ById(flows, id).Some? {
      var f := ById(flows, id).value;
      FailEach(c.expects, Violation(f, lib));
      forall e ensures HasFail(Violation(f, lib)(e)) <==> e.path in f.at && !Meets(e.want, f.at[e.path], lib) {
        FailWhen(e.path in f.at && !Meets(e.want, f.at[e.path], lib), Fail, ExpectationViolated, f.id);
      }
    } else {
      NoFindings();
    }
  }

  lemma {:induction false} OnlyOne(flows: seq<M.FlowRec>, f: M.FlowRec)
    requires M.DistinctIds(flows) && f in flows
    ensures ById(flows, f.id) == Some(f)
  {
    var n := |flows| - 1;
    assert flows == flows[..n] + [flows[n]];
    if flows[n].id == f.id {
      var i :| 0 <= i < |flows| && flows[i] == f;
      assert i == n;
    } else {
      OnlyOne(flows[..n], f);
    }
  }

  lemma ViolationsFail(c: Claim, flows: seq<M.FlowRec>, lib: Library)
    requires M.DistinctIds(flows)
    ensures HasFail(Violations(flows, lib)(c))
       <==> exists f, e :: f in flows && f.id in c.renders && e in c.expects && e.path in f.at
                        && !Meets(e.want, f.at[e.path], lib)
  {
    hide HasFail;
    FailEach(c.renders, ViolationsOn(c, flows, lib));
    forall id ensures HasFail(ViolationsOn(c, flows, lib)(id))
        <==> exists f, e :: f in flows && f.id == id && e in c.expects && e.path in f.at
                         && !Meets(e.want, f.at[e.path], lib)
    {
      ViolationFails(c, id, flows, lib);
      forall f | f in flows && f.id == id ensures ById(flows, id) == Some(f) {
        OnlyOne(flows, f);
      }
    }
  }

  lemma CarriedMeans(c: Claim, path: string, flows: seq<M.FlowRec>)
    requires M.DistinctIds(flows)
    ensures Carried(c, path, flows) <==> exists f :: f in flows && f.id in c.renders && path in f.at
  {
    forall f | f in flows ensures ById(flows, f.id) == Some(f) {
      OnlyOne(flows, f);
    }
  }

  lemma VacuousFails(c: Claim, claims: seq<Claim>, flows: seq<M.FlowRec>)
    requires UniqueClaims(claims) && c in claims
    ensures HasFail(Vacuous(SatisfiedPairs(claims, flows))(c))
       <==> exists e :: e in c.expects && !Carried(c, e.path, flows)
  {
    hide HasFail;
    hide Carried;
    var satisfied := SatisfiedPairs(claims, flows);
    FailEach(c.expects, VacuousIn(satisfied, c));
    forall e | e in c.expects ensures HasFail(VacuousIn(satisfied, c)(e)) <==> !Carried(c, e.path, flows) {
      FailWhen((c.id, e.path) !in satisfied, Fail, ExpectationUnsatisfied, c.id);
      if (c.id, e.path) in satisfied {
        var d, g :| d in claims && g in d.expects && Carried(d, g.path, flows) && (d.id, g.path) == (c.id, e.path);
        assert d == c;
      }
    }
  }

  lemma QuantityFails(c: Claim, flows: seq<M.FlowRec>, lib: Library)
    ensures HasFail(Quantity(flows, lib)(c)) <==> !Quantified(c, flows, lib)
  {
    hide Measure;
    if c.quantifier.Some? {
      var q := c.quantifier.value;
      var m := Measure(q.unit, flows, lib);
      if c.unmodelledReason != "" {
        assert Quantity(flows, lib)(c) == [Finding(Info, QuantityDeclaredUnmodelled, c.id)];
      } else if q.unit in UNMEASURABLE {
        FailWhen(c.renders != [] && c.measurementNote == "", Warn, UnmeasurableQuantifier, c.id);
      } else if m.None? {
        assert Quantity(flows, lib)(c)[0] == Finding(Fail, UnknownUnit, c.id);
      } else {
        FailWhen(Broken(q, m.value), Fail, if q.kind.Floor? then FloorViolated else CeilingViolated, c.id);
      }
    }
  }

  lemma ClaimsFail(cs: ClaimSet, flows: seq<M.FlowRec>, lib: Library)
    requires M.DistinctIds(flows) && UniqueClaims(cs.claims)
    ensures !HasFail(ClaimFindings(cs, flows, lib))
       <==> ClaimsHold(cs, flows, lib)
  {
    hide HasFail;
    hide Quantified;
    hide AccountedFor;
    hide Each;
    hide Meets;
    var vacuous := Vacuous(SatisfiedPairs(cs.claims, flows));
    var a, b, d := Each(cs.claims, Backward), Each(cs.claims, Conflict), Each(cs.claims, Violations(flows, lib));
    var e, g := Each(cs.claims, vacuous), Each(cs.claims, Quantity(flows, lib));
    FailConcat(a, b);
    FailConcat(a + b, d);
    FailConcat(a + b + d, e);
    FailConcat(a + b + d + e, g);
    FailEach(cs.claims, Backward);
    FailEach(cs.claims, Conflict);
    FailEach(cs.claims, Violations(flows, lib));
    FailEach(cs.claims, vacuous);
    FailEach(cs.claims, Quantity(flows, lib));
    forall c | c in cs.claims
      ensures HasFail(Backward(c)) || HasFail(Conflict(c)) <==> !AccountedFor(c)
      ensures HasFail(Violations(flows, lib)(c)) || HasFail(vacuous(c)) <==> !Expected(c, flows, lib)
      ensures HasFail(Quantity(flows, lib)(c)) <==> !Quantified(c, flows, lib)
    {
      BackwardFails(c);
      QuantityFails(c, flows, lib);
      ExpectedFails(c, cs, flows, lib);
    }
  }

  lemma ExpectedFails(c: Claim, cs: ClaimSet, flows: seq<M.FlowRec>, lib: Library)
    requires M.DistinctIds(flows) && UniqueClaims(cs.claims) && c in cs.claims
    ensures HasFail(Violations(flows, lib)(c)) || HasFail(Vacuous(SatisfiedPairs(cs.claims, flows))(c))
       <==> !Expected(c, flows, lib)
  {
    hide HasFail;
    hide Violations;
    hide Vacuous;
    hide Meets;
    ViolationsFail(c, flows, lib);
    VacuousFails(c, cs.claims, flows);
    forall e | e in c.expects
      ensures Carried(c, e.path, flows) <==> exists f :: f in flows && f.id in c.renders && e.path in f.at
    {
      CarriedMeans(c, e.path, flows);
    }
  }

  // ---------------------------------------------------------------- flows

  lemma {:induction false} CountIdMeans(flows: seq<M.FlowRec>, id: string)
    ensures CountId(flows, id) == 0 <==> forall i :: 0 <= i < |flows| ==> flows[i].id != id
    ensures CountId(flows, id) <= 1
       <==> forall i, j :: 0 <= i < j < |flows| ==> !(flows[i].id == id && flows[j].id == id)
  {
    if flows != [] {
      var n := |flows| - 1;
      CountIdMeans(flows[..n], id);
      assert forall i :: 0 <= i < n ==> flows[..n][i] == flows[i];
      if CountId(flows, id) == 2 && flows[n].id == id && CountId(flows[..n], id) == 1 {
        var i :| 0 <= i < n && flows[..n][i].id == id;
        assert flows[i].id == id && flows[n].id == id;
      }
    }
  }

  lemma {:induction false} DupIdsMeans(flows: seq<M.FlowRec>, n: nat)
    requires n <= |flows|
    ensures DupIds(flows, n) == [] <==> forall i :: 0 <= i < n ==> CountId(flows, flows[i].id) <= 1
  {
    hide CountId;
    if n > 0 {
      DupIdsMeans(flows, n - 1);
    }
  }

  lemma {:induction false} DuplicatesFail(flows: seq<M.FlowRec>)
    ensures !HasFail(Each(Dedup(DupIds(flows, |flows|)), DUPLICATE)) <==> M.DistinctIds(flows)
  {
    hide HasFail;
    hide DupIds;
    hide M.DistinctIds;
    hide Dedup;
    hide Each;
    var dups := DupIds(flows, |flows|);
    FailEach(Dedup(dups), DUPLICATE);
    forall id ensures HasFail(DUPLICATE(id)) {
      FailOne(DUPLICATE(id)[0]);
    }
    assert dups != [] ==> dups[0] in Dedup(dups);
    NoDuplicates(flows);
  }

  lemma {:induction false} NoDuplicates(flows: seq<M.FlowRec>)
    ensures DupIds(flows, |flows|) == [] <==> M.DistinctIds(flows)
  {
    hide DupIds;
    hide CountId;
    DupIdsMeans(flows, |flows|);
    forall k | 0 <= k < |flows| ensures CountId(flows, flows[k].id) <= 1
        <==> forall i, j :: 0 <= i < j < |flows| ==> !(flows[i].id == flows[k].id && flows[j].id == flows[k].id)
    {
      CountIdMeans(flows, flows[k].id);
    }
    if !M.DistinctIds(flows) {
      var i, j :| 0 <= i < j < |flows| && flows[i].id == flows[j].id;
      assert CountId(flows, flows[i].id) > 1;
    }
  }

  lemma FailOne(f: Finding)
    ensures HasFail([f]) <==> f.level.Fail?
  {
    assert [f][0] == f;
  }

  lemma {:induction false} ForwardFails(cs: ClaimSet, flows: seq<M.FlowRec>)
    ensures !HasFail(ForwardFindings(cs, flows)) <==> M.DistinctIds(flows) && Licensing(cs, flows)
  {
    hide HasFail;
    hide Each;
    hide Dedup;
    hide DupIds;
    var listed := Dedup(cs.illustrative);
    var a := Each(Dedup(DupIds(flows, |flows|)), DUPLICATE);
    var b, d := Each(listed, BothWays(cs.claims)), Each(listed, NotThere(M.IdsOf(flows)));
    var e := Each(flows, Unlicensed(cs));
    FailConcat(a, b);
    FailConcat(a + b, d);
    FailConcat(a + b + d, e);
    DuplicatesFail(flows);
    FailEach(listed, BothWays(cs.claims));
    FailEach(listed, NotThere(M.IdsOf(flows)));
    FailEach(flows, Unlicensed(cs));
    forall id
      ensures HasFail(BothWays(cs.claims)(id)) <==> IsLicensed(cs.claims, id)
      ensures HasFail(NotThere(M.IdsOf(flows))(id)) <==> id !in M.IdsOf(flows)
    {
      RenderedMeans(cs.claims, id);
      FailWhen(id in Rendered(cs.claims), Fail, LicensedAndIllustrative, id);
      FailWhen(id !in M.IdsOf(flows), Fail, DanglingIllustrative, id);
    }
    forall f: M.FlowRec
      ensures HasFail(Unlicensed(cs)(f)) <==> !IsLicensed(cs.claims, f.id) && f.id !in cs.illustrative
    {
      RenderedMeans(cs.claims, f.id);
      FailWhen(f.id !in Rendered(cs.claims) && f.id !in cs.illustrative, Fail, Code.UnlicensedFlow, f.id);
    }
    LicensingMeans(cs, flows);
  }

  lemma LicensingMeans(cs: ClaimSet, flows: seq<M.FlowRec>)
    ensures Licensing(cs, flows)
       <==> && (forall id :: id in cs.illustrative ==> !IsLicensed(cs.claims, id) && id in M.IdsOf(flows))
            && forall f :: f in flows ==> IsLicensed(cs.claims, f.id) || f.id in cs.illustrative
  {
    hide IsLicensed;
  }

  lemma WarningsOnly(cs: ClaimSet)
    ensures !HasFail(Each(Dedup(Rendered(cs.claims)), Sourcing(cs)))
  {
    hide HasFail;
    hide Each;
    FailEach(Dedup(Rendered(cs.claims)), Sourcing(cs));
    forall id ensures !HasFail(Sourcing(cs)(id)) {
      NoFindings();
      var licences := Licences(cs.claims, id);
      if licences != [] {
        var best := Best(licences);
        var src := SourceOf(cs.sources, best.source);
        FailOne(Finding(Warn, AssumptionOnly, id));
        FailWhen(src.Some? && src.value.preliminary && !src.value.aboutOwn, Warn, ThirdPartyPreliminary, id);
      }
    }
  }

  // ---------------------------------------------------------------- markings

  lemma {:induction false} SelectorsFail(m: M.Mark, facts: seq<M.Fact>)
    ensures HasFail(Each(m.selectors, SelectorFinding(facts)))
       <==> exists sel :: sel in m.selectors && forall f :: f in facts ==> M.SelectorScore(sel, f.flowId, f.path).None?
  {
    hide HasFail;
    FailEach(m.selectors, SelectorFinding(facts));
    forall sel ensures HasFail(SelectorFinding(facts)(sel))
        <==> forall f :: f in facts ==> M.SelectorScore(sel, f.flowId, f.path).None?
    {
      hide M.SelectorScore;
      FailWhen(!Addresses(sel, facts), Fail, DanglingSelector, sel);
      if Addresses(sel, facts) {
        var i :| 0 <= i < |facts| && M.SelectorScore(sel, facts[i].flowId, facts[i].path).Some?;
        assert facts[i] in facts;
      }
    }
  }

  lemma {:induction false} MarkFails(m: M.Mark, cs: ClaimSet, facts: seq<M.Fact>)
    ensures HasFail(MarkFindings(cs, facts)(m)) <==> !WellMarked(m, cs, facts)
  {
    hide HasFail;
    hide Each;
    hide When;
    hide M.SelectorScore;
    SelectorsFail(m, facts);
    var a := Each(m.selectors, SelectorFinding(facts));
    var c1 := (m.icd203.Observed? || m.icd203.Judgment?) && m.claimRef == "";
    var c2 := m.icd203.Fabricated? && m.claimRef != "";
    var c3 := m.icd203.Observed? && m.pedigree < 3;
    var c4 := m.icd203.Observed? && m.derivation !in {Some(M.RetrievedFrom), Some(M.ImportedFrom)};
    var c5 := m.icd203.Fabricated? && m.pedigree != 0;
    var c6 := m.claimRef != "" && m.claimRef !in ClaimIds(cs.claims);
    var c7 := Unsourced(m, cs.claims, SourceIds(cs.sources));
    var f1, f2 := When(c1, Fail, MarkingWithoutCitation, ""), When(c2, Fail, FabricatedWithCitation, m.claimRef);
    var f3, f4 := When(c3, Fail, PedigreeTooLow, ""), When(c4, Fail, DerivationNotAnchored, "");
    var f5, f6 := When(c5, Fail, PedigreeOverclaimed, ""), When(c6, Fail, UnknownClaimRef, m.claimRef);
    var f7 := When(c7, Fail, UnsourcedMarking, m.claimRef);
    FailWhen(c1, Fail, MarkingWithoutCitation, "");
    FailWhen(c2, Fail, FabricatedWithCitation, m.claimRef);
    FailWhen(c3, Fail, PedigreeTooLow, "");
    FailWhen(c4, Fail, DerivationNotAnchored, "");
    FailWhen(c5, Fail, PedigreeOverclaimed, "");
    FailWhen(c6, Fail, UnknownClaimRef, m.claimRef);
    FailWhen(c7, Fail, UnsourcedMarking, m.claimRef);
    FailConcat(a, f1);
    FailConcat(a + f1, f2);
    FailConcat(a + f1 + f2, f3);
    FailConcat(a + f1 + f2 + f3, f4);
    FailConcat(a + f1 + f2 + f3 + f4, f5);
    FailConcat(a + f1 + f2 + f3 + f4 + f5, f6);
    FailConcat(a + f1 + f2 + f3 + f4 + f5 + f6, f7);
    WellMarkedMeans(m, cs, facts, c1, c2, c3, c4, c5, c6, c7);
  }

  lemma WellMarkedMeans(
    m: M.Mark, cs: ClaimSet, facts: seq<M.Fact>, c1: bool, c2: bool, c3: bool, c4: bool, c5: bool, c6: bool, c7: bool)
    requires c1 == ((m.icd203.Observed? || m.icd203.Judgment?) && m.claimRef == "")
    requires c2 == (m.icd203.Fabricated? && m.claimRef != "")
    requires c3 == (m.icd203.Observed? && m.pedigree < 3)
    requires c4 == (m.icd203.Observed? && m.derivation !in {Some(M.RetrievedFrom), Some(M.ImportedFrom)})
    requires c5 == (m.icd203.Fabricated? && m.pedigree != 0)
    requires c6 == (m.claimRef != "" && m.claimRef !in ClaimIds(cs.claims))
    requires c7 == Unsourced(m, cs.claims, SourceIds(cs.sources))
    ensures WellMarked(m, cs, facts) <==>
      && !c1 && !c2 && !c3 && !c4 && !c5 && !c6 && !c7
      && forall sel :: sel in m.selectors ==> exists f :: f in facts && M.SelectorScore(sel, f.flowId, f.path).Some?
  {
    hide M.SelectorScore;
  }

  lemma {:induction false} MarkedClassesMeans(fm: Option<M.FieldMarkings>, facts: seq<M.Fact>)
    ensures MarkedClasses(fm, facts) == [] <==> forall f :: f in facts ==> !IsMarked(fm, f)
    ensures (forall i :: i in MarkedClasses(fm, facts) ==> i.Observed?)
       <==> forall f :: f in facts && IsMarked(fm, f) ==> MarkedObserved(fm, f)
  {
    if facts != [] {
      hide M.Resolve;
      var n := |facts| - 1;
      assert facts == facts[..n] + [facts[n]];
      MarkedClassesMeans(fm, facts[..n]);
      var mk := M.Resolve(fm, facts[n].flowId, facts[n].path);
      assert IsMarked(fm, facts[n]) <==> mk.Some?;
      assert mk.Some? ==> fm.value.marks[mk.value].icd203 in MarkedClasses(fm, facts);
      assert forall i :: i in MarkedClasses(fm, facts[..n]) ==> i in MarkedClasses(fm, facts);
    }
  }

  lemma PredictionFails(p: Prediction, cs: ClaimSet, flows: seq<M.FlowRec>)
    ensures HasFail(PredictionFinding(cs, flows)(p)) <==> !Predicts(p, cs, flows)
  {
    hide MarkedObserved;
    hide IsMarked;
    hide RenderedFacts;
    var facts := RenderedFacts(flows, p.renders);
    MarkedClassesMeans(cs.fieldMarkings, facts);
    FailWhen(AllObserved(MarkedClasses(cs.fieldMarkings, facts)), Fail, PredictionIsNot, p.id);
  }

  lemma {:induction false} MarkingsFail(cs: ClaimSet, flows: seq<M.FlowRec>)
    ensures !HasFail(MarkingFindings(cs, flows))
       <==> MarksHold(cs, flows) && PredictionsHold(cs, flows)
  {
    hide HasFail;
    hide WellMarked;
    hide Predicts;
    hide Each;
    var facts := M.AllFacts(flows);
    var a, b := Each(Marks(cs), MarkFindings(cs, facts)), Each(facts, ShadowFinding(cs.fieldMarkings));
    var d := Each(cs.predictions, PredictionFinding(cs, flows));
    FailConcat(a, b);
    FailConcat(a + b, d);
    FailEach(Marks(cs), MarkFindings(cs, facts));
    FailEach(facts, ShadowFinding(cs.fieldMarkings));
    FailEach(cs.predictions, PredictionFinding(cs, flows));
    forall m ensures HasFail(MarkFindings(cs, facts)(m)) <==> !WellMarked(m, cs, facts) {
      MarkFails(m, cs, facts);
    }
    forall f: M.Fact ensures !HasFail(ShadowFinding(cs.fieldMarkings)(f)) {
      FailWhen(M.Shadowed(cs.fieldMarkings, f), Warn, AleatoricShadowed, f.path);
    }
    forall p ensures HasFail(PredictionFinding(cs, flows)(p)) <==> !Predicts(p, cs, flows) {
      PredictionFails(p, cs, flows);
    }
  }

  // ---------------------------------------------------------------- the class

  lemma {:induction false} CountMeans(facts: seq<M.Fact>, classOf: M.Fact -> M.Class, c: M.Class)
    ensures M.Count(facts, classOf, c) > 0 <==> exists f :: f in facts && classOf(f) == c
  {
    if facts != [] {
      var n := |facts| - 1;
      assert facts == facts[..n] + [facts[n]];
      CountMeans(facts[..n], classOf, c);
    }
  }

  /** When every mark is well sourced, the observed facts are those whose mark says so. */
  lemma ObservationsMean(cs: ClaimSet, flows: seq<M.FlowRec>)
    requires MarksHold(cs, flows)
    ensures InvalidMarks(cs) == {}
    ensures Observations(cs, flows) > 0 <==> exists f :: f in M.AllFacts(flows) && MarkedObserved(cs.fieldMarkings, f)
  {
    hide M.Resolve;
    hide M.SelectorScore;
    var classOf := M.Global(cs.fieldMarkings, InvalidMarks(cs));
    forall k: nat | k < |Marks(cs)| ensures !Unsourced(Marks(cs)[k], cs.claims, SourceIds(cs.sources)) {
      assert WellMarked(Marks(cs)[k], cs, M.AllFacts(flows));
    }
    CountMeans(M.AllFacts(flows), classOf, M.Marked(M.Observed));
    forall f: M.Fact ensures classOf(f) == M.Marked(M.Observed) <==> MarkedObserved(cs.fieldMarkings, f) {
    }
  }

  lemma ClassFails(cs: ClaimSet, observed: nat, lib: Library)
    requires !cs.exercise
    ensures !HasFail(ClassFindings(cs, observed, lib)) <==>
      && observed > 0
      && (exists c :: c in cs.claims && c.renders != [])
      && 2 * GapCount(cs.claims) <= |cs.claims|
      && cs.sourceSummary != ""
  {
    hide HasFail;
    hide When;
    hide Boilerplate;
    var none := forall c :: c in cs.claims ==> c.renders == [];
    var gaps := 2 * GapCount(cs.claims) > |cs.claims|;
    var a, b := When(observed == 0, Fail, NothingSourced, ""), When(none, Fail, NothingRendered, "");
    var d, e := When(gaps, Fail, MostlyUnmodelled, ""), When(Boilerplate(cs.claims, lib), Warn, BoilerplateReason, "");
    var g := When(cs.sourceSummary == "", Fail, MissingSummary, "");
    FailWhen(observed == 0, Fail, NothingSourced, "");
    FailWhen(none, Fail, NothingRendered, "");
    FailWhen(gaps, Fail, MostlyUnmodelled, "");
    FailWhen(Boilerplate(cs.claims, lib), Warn, BoilerplateReason, "");
    FailWhen(cs.sourceSummary == "", Fail, MissingSummary, "");
    FailConcat(a, b);
    FailConcat(a + b, d);
    FailConcat(a + b + d, e);
    FailConcat(a + b + d + e, g);
  }

  lemma AboutFails(cs: ClaimSet, flows: seq<M.FlowRec>, lib: Library)
    requires !cs.exercise && MarksHold(cs, flows)
    ensures !HasFail(ClassFindings(cs, Observations(cs, flows), lib)) <==> AboutSomething(cs, flows)
  {
    hide HasFail;
    hide ClassFindings;
    hide Observations;
    hide MarkedObserved;
    hide MarksHold;
    ClassFails(cs, Observations(cs, flows), lib);
    ObservationsMean(cs, flows);
  }

  lemma ConcludeFails(cs: ClaimSet, fs: Findings)
    ensures HasFail(Conclude(cs, fs)) <==> !cs.exercise && HasFail(fs)
  {
    if cs.exercise {
      forall i | 0 <= i < |Conclude(cs, fs)| ensures !Conclude(cs, fs)[i].level.Fail? {
        assert i < |fs| ==> Conclude(cs, fs)[i] == Advisory(fs)[i];
      }
    } else {
      FailWhen(HasFail(fs), Fail, ClassNotEarned, "");
      FailConcat(fs, When(HasFail(fs), Fail, ClassNotEarned, ""));
    }
  }

  /**
   The meaning of PASS. An exercise always passes; a reconstruction passes exactly when it is
   warranted: nothing else makes the gate fail, and nothing in the meaning is left unchecked.
   */
  lemma {:induction false} PassMeansWarranted(cs: ClaimSet, flows: seq<M.FlowRec>, lib: Library)
    ensures !HasFail(Conclude(cs, AllFindings(cs, flows, lib))) <==> cs.exercise || Warranted(cs, flows, lib)
  {
    ConcludeFails(cs, AllFindings(cs, flows, lib));
    if !cs.exercise {
      FindingsFail(cs, flows, lib);
    }
  }

  lemma {:induction false} CitedFails(cs: ClaimSet, flows: seq<M.FlowRec>)
    ensures !HasFail(Structure(cs.claims, SourceIds(cs.sources), M.IdsOf(flows)))
       <==> UniqueClaims(cs.claims) && ClaimsCited(cs, flows)
  {
    StructureFails(cs.claims, cs.sources, flows);
  }

  lemma {:induction false} FindingsFail(cs: ClaimSet, flows: seq<M.FlowRec>, lib: Library)
    requires !cs.exercise
    ensures !HasFail(AllFindings(cs, flows, lib)) <==> Warranted(cs, flows, lib)
  {
    hide HasFail;
    hide Structure;
    hide ForwardFindings;
    hide ClaimFindings;
    hide MarkingFindings;
    hide ClassFindings;
    hide Observations;
    hide Each;
    hide Licensing;
    hide ClaimsCited;
    hide ClaimsHold;
    hide MarksHold;
    hide PredictionsHold;
    hide AboutSomething;
    hide M.DistinctIds;
    hide UniqueClaims;
    hide SourceIds;
    hide M.IdsOf;
    hide Dedup;
    hide Rendered;
    var a, b := Structure(cs.claims, SourceIds(cs.sources), M.IdsOf(flows)), ForwardFindings(cs, flows);
    var d, e := ClaimFindings(cs, flows, lib), Each(Dedup(Rendered(cs.claims)), Sourcing(cs));
    var g, h := MarkingFindings(cs, flows), ClassFindings(cs, Observations(cs, flows), lib);
    FailConcat(a, b);
    FailConcat(a + b, d);
    FailConcat(a + b + d, e);
    FailConcat(a + b + d + e, g);
    FailConcat(a + b + d + e + g, h);
    CitedFails(cs, flows);
    ForwardFails(cs, flows);
    WarningsOnly(cs);
    MarkingsFail(cs, flows);
    if M.DistinctIds(flows) && UniqueClaims(cs.claims) {
      ClaimsFail(cs, flows, lib);
    }
    if MarksHold(cs, flows) {
      AboutFails(cs, flows, lib);
    }
  }

  // ---------------------------------------------------------------- what is said without failing

  /** How many findings carry a code. */
  function CodeCount(fs: Findings, code: Code): nat {
    if fs == [] then 0 else CodeCount(fs[..|fs| - 1], code) + (if fs[|fs| - 1].code == code then 1 else 0)
  }

  lemma {:induction false} CodeConcat(a: Findings, b: Findings, code: Code)
    ensures CodeCount(a + b, code) == CodeCount(a, code) + CodeCount(b, code)
  {
    if b == [] {
      assert a + b == a;
    } else {
      var n := |b| - 1;
      assert (a + b)[..|a + b| - 1] == a + b[..n];
      CodeConcat(a, b[..n], code);
    }
  }

  /** A gap the census counts and the list of declared gaps leaves out: a reason on an open question. */
  predicate Unlisted(c: Claim) {
    c.stance.SourceUnresolved? && c.renders == [] && c.unmodelledReason != ""
  }

  /**
   The declared gaps number what the census calls unmodelled exactly when no open question carries a
   reason of its own.
   */
  lemma {:induction false} GapsListed(claims: seq<Claim>)
    ensures CodeCount(Each(claims, Backward), Unmodelled) <= GapCount(claims)
    ensures CodeCount(Each(claims, Backward), Unmodelled) == GapCount(claims)
       <==> forall c :: c in claims ==> !Unlisted(c)
  {
    if claims != [] {
      var n := |claims| - 1;
      assert claims == claims[..n] + [claims[n]];
      GapsListed(claims[..n]);
      CodeConcat(Each(claims[..n], Backward), Backward(claims[n]), Unmodelled);
      OneGap(claims[n]);
      hide CodeCount;
      hide Backward;
      assert GapCount(claims) - GapCount(claims[..n])
          == CodeCount(Backward(claims[n]), Unmodelled) + (if Unlisted(claims[n]) then 1 else 0);
      assert (forall c :: c in claims ==> !Unlisted(c))
        <==> (forall c :: c in claims[..n] ==> !Unlisted(c)) && !Unlisted(claims[n]);
    }
  }

  lemma OneGap(c: Claim)
    ensures CodeCount(Backward(c), Unmodelled)
         == if !c.stance.SourceUnresolved? && c.renders == [] && c.unmodelledReason != "" then 1 else 0
  {
    if Backward(c) != [] {
      assert Backward(c)[..0] == [];
    }
  }

  /** A flow is named as resting on assumption exactly when nothing better licenses it. */
  lemma AssumptionNamed(cs: ClaimSet, id: string)
    requires Licences(cs.claims, id) != []
    ensures Sourcing(cs)(id) == [Finding(Warn, AssumptionOnly, id)] <==>
      && (exists c :: c in Licences(cs.claims, id) && c.stance.Assumption?)
      && forall c :: c in Licences(cs.claims, id) ==> c.stance.Assumption? || c.stance.SourceUnresolved?
  {
    hide Licences;
    var best := Best(Licences(cs.claims, id));
    forall c | c in Licences(cs.claims, id) ensures Rank(best.stance) <= Rank(c.stance) {
    }
  }
}
