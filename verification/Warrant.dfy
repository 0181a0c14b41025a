/** The warrant gate: `check` as the list of findings it raises, section by section, and its census. */
module Warrant {
  import opened Seqs
  import M = Markings

  datatype Stance = Observed | Judgment | Assumption | TechnologyDefault | SourceUnresolved

  datatype Bound = Floor | Ceiling

  datatype Quantifier = Quantifier(kind: Bound, value: real, unit: string)

  /** A literal, or "~regex". */
  datatype Want = Exactly(text: string) | Matching(regex: string)

  datatype Expectation = Expectation(path: string, want: Want)

  datatype Claim = Claim(
    id: string, stance: Stance, source: string, quote: string, quantifier: Option<Quantifier>,
    renders: seq<string>, unmodelledReason: string, measurementNote: string, expects: seq<Expectation>)

  datatype Source = Source(id: string, preliminary: bool, aboutOwn: bool)

  datatype Prediction = Prediction(id: string, renders: seq<string>)

  datatype ClaimSet = ClaimSet(
    exercise: bool, fieldMarkings: Option<M.FieldMarkings>, sourceSummary: string, sources: seq<Source>,
    illustrative: seq<string>, claims: seq<Claim>, predictions: seq<Prediction>)

  /** Library calls: regular expression search, address classes, and text normalisation. */
  datatype Library = Library(
    search: (string, string) -> bool, internal: string -> bool, normal: string -> string)

  datatype Level = Fail | Warn | Info

  datatype Code =
    | DuplicateClaimId | MissingCitation | CitationOnAssumption | UnknownSource | DanglingRender
    | DuplicateFlowId | LicensedAndIllustrative | DanglingIllustrative | UnlicensedFlow
    | Unmodelled | UnaccountedClaim | ResolvesOpenQuestion | ExpectationViolated | ExpectationUnsatisfied
    | QuantityDeclaredUnmodelled | UnmeasurableQuantifier | UnknownUnit | FloorViolated | CeilingViolated
    | AssumptionOnly | ThirdPartyPreliminary
    | DanglingSelector | MarkingWithoutCitation | FabricatedWithCitation | PedigreeTooLow
    | DerivationNotAnchored | PedigreeOverclaimed | UnknownClaimRef | UnsourcedMarking
    | AleatoricShadowed | PredictionIsNot
    | NothingSourced | NothingRendered | MostlyUnmodelled | BoilerplateReason | MissingSummary
    | ArtifactClass | ClassNotEarned

  datatype Finding = Finding(level: Level, code: Code, subject: string)

  type Findings = seq<Finding>

  function When(b: bool, level: Level, code: Code, subject: string): Findings {
    if b then [Finding(level, code, subject)] else []
  }

  /** Findings of a loop over a list, in order. */
  function Each<T>(xs: seq<T>, f: T -> Findings): Findings {
    if xs == [] then [] else Each(xs[..|xs| - 1], f) + f(xs[|xs| - 1])
  }

  /** A set in the order its elements were first listed. */
  function Dedup(xs: seq<string>): (r: seq<string>)
    ensures forall x :: x in r <==> x in xs
  {
    if xs == [] then []
    else
      var n := |xs| - 1;
      assert xs == xs[..n] + [xs[n]];
      if xs[n] in xs[..n] then Dedup(xs[..n]) else Dedup(xs[..n]) + [xs[n]]
  }

  // ---------------------------------------------------------------- look-ups

  function SourceIds(sources: seq<Source>): set<string> {
    set s | s in sources :: s.id
  }

  function ClaimIds(claims: seq<Claim>): set<string> {
    set c | c in claims :: c.id
  }

  /** `{f.flow_id: f for f in flows}`: the last flow with an id. */
  function ById(flows: seq<M.FlowRec>, id: string): (r: Option<M.FlowRec>)
    ensures r.Some? ==> r.value in flows && r.value.id == id
    ensures r.None? <==> id !in M.IdsOf(flows)
  {
    if flows == [] then None
    else
      var n := |flows| - 1;
      assert flows == flows[..n] + [flows[n]];
      if flows[n].id == id then Some(flows[n]) else ById(flows[..n], id)
  }

  function SourceOf(sources: seq<Source>, id: string): Option<Source> {
    if sources == [] then None
    else if sources[|sources| - 1].id == id then Some(sources[|sources| - 1])
    else SourceOf(sources[..|sources| - 1], id)
  }

  /** `next((x for x in claims if x.id == id), None)` */
  function FirstClaim(claims: seq<Claim>, id: string): (r: Option<Claim>)
    ensures r.Some? ==> r.value in claims && r.value.id == id
    ensures r.None? <==> id !in ClaimIds(claims)
  {
    if claims == [] then None
    else if claims[0].id == id then Some(claims[0])
    else
      var r := FirstClaim(claims[1..], id);
      assert claims == [claims[0]] + claims[1..];
      r
  }

  function Repeat(c: Claim, renders: seq<string>, id: string): seq<Claim> {
    if renders == [] then []
    else Repeat(c, renders[..|renders| - 1], id) + (if renders[|renders| - 1] == id then [c] else [])
  }

  /** The claims that license a flow id, in order, once per mention. */
  function Licences(claims: seq<Claim>, id: string): seq<Claim> {
    if claims == [] then []
    else
      var c := claims[|claims| - 1];
      Licences(claims[..|claims| - 1], id) + Repeat(c, c.renders, id)
  }

  function Rendered(claims: seq<Claim>): seq<string> {
    if claims == [] then [] else Rendered(claims[..|claims| - 1]) + claims[|claims| - 1].renders
  }

  function Rank(s: Stance): nat {
    match s
    case Observed => 0
    case TechnologyDefault => 1
    case Judgment => 2
    case Assumption => 3
    case SourceUnresolved => 4
  }

  /** The first claim of least rank. */
  function Best(licences: seq<Claim>): (c: Claim)
    requires licences != []
    ensures c in licences && forall x :: x in licences ==> Rank(c.stance) <= Rank(x.stance)
  {
    if |licences| == 1 then licences[0]
    else
      var n := |licences| - 1;
      assert licences == licences[..n] + [licences[n]];
      var best := Best(licences[..n]);
      if Rank(licences[n].stance) < Rank(best.stance) then licences[n] else best
  }

  // ---------------------------------------------------------------- measures

  const UNMEASURABLE: set<string> := {
    "attacker-actions", "clusters", "credentials", "c2-endpoints", "hosts-compromised",
    "application-layer-denials" }

  function Earliest(flows: seq<M.FlowRec>): (t: real)
    requires flows != []
    ensures forall f :: f in flows ==> t <= f.startTime
    ensures exists f :: f in flows && f.startTime == t
  {
    if |flows| == 1 then flows[0].startTime
    else
      var n := |flows| - 1;
      assert flows == flows[..n] + [flows[n]];
      var t := Earliest(flows[..n]);
      if flows[n].startTime < t then flows[n].startTime else t
  }

  function Latest(flows: seq<M.FlowRec>): (t: real)
    requires flows != []
    ensures forall f :: f in flows ==> f.startTime <= t
    ensures exists f :: f in flows && f.startTime == t
  {
    if |flows| == 1 then flows[0].startTime
    else
      var n := |flows| - 1;
      assert flows == flows[..n] + [flows[n]];
      var t := Latest(flows[..n]);
      if t < flows[n].startTime then flows[n].startTime else t
  }

  predicate IsFailed(f: M.FlowRec) {
    !f.udp && (f.connState.S0? || f.connState.REJ? || f.connState.RSTR? || f.connState.RSTO?)
  }

  function FailedCount(flows: seq<M.FlowRec>): nat {
    if flows == [] then 0
    else FailedCount(flows[..|flows| - 1]) + (if IsFailed(flows[|flows| - 1]) then 1 else 0)
  }

  function Measure(unit: string, flows: seq<M.FlowRec>, lib: Library): Option<real> {
    if unit == "flows" then Some(|flows| as real)
    else if unit == "distinct-dst-ips" then Some(|set f | f in flows :: f.dstIp| as real)
    else if unit == "distinct-external-dst-ips" then
      Some(|set f | f in flows && !lib.internal(f.dstIp) :: f.dstIp| as real)
    else if unit == "distinct-internal-src-ips" then
      Some(|set f | f in flows && lib.internal(f.srcIp) :: f.srcIp| as real)
    else if unit == "capture-span-seconds" then
      Some(if flows == [] then 0.0 else Latest(flows) - Earliest(flows))
    else if unit == "failed-flow-fraction" then
      Some(if flows == [] then 0.0 else FailedCount(flows) as real / |flows| as real)
    else None
  }

  // ---------------------------------------------------------------- findings about claims

  predicate NeedsCitation(s: Stance) { s.Observed? || s.Judgment? || s.SourceUnresolved? }

  function Dangling(ids: set<string>): string -> Findings {
    (id: string) => When(id !in ids, Fail, DanglingRender, id)
  }

  function StructureOf(c: Claim, seen: bool, sources: set<string>, ids: set<string>): Findings {
    When(seen, Fail, DuplicateClaimId, c.id)
    + When(NeedsCitation(c.stance) && !(c.source != "" && c.quote != ""), Fail, MissingCitation, c.id)
    + When(c.stance.Assumption? && c.source != "", Fail, CitationOnAssumption, c.id)
    + When(c.source != "" && c.source !in sources, Fail, UnknownSource, c.id)
    + Each(c.renders, Dangling(ids))
  }

  function Structure(claims: seq<Claim>, sources: set<string>, ids: set<string>): Findings {
    if claims == [] then []
    else
      var before, c := claims[..|claims| - 1], claims[|claims| - 1];
      Structure(before, sources, ids) + StructureOf(c, c.id in ClaimIds(before), sources, ids)
  }

  function Backward(c: Claim): Findings {
    if c.stance.SourceUnresolved? || c.renders != [] then []
    else if c.unmodelledReason != "" then [Finding(Info, Unmodelled, c.id)]
    else [Finding(Fail, UnaccountedClaim, c.id)]
  }

  function Conflict(c: Claim): Findings {
    When(c.stance.SourceUnresolved? && c.renders != [], Fail, ResolvesOpenQuestion, c.id)
  }

  predicate Meets(want: Want, got: string, lib: Library) {
    match want
    case Exactly(text) => got == text
    case Matching(regex) => lib.search(regex, got)
  }

  function Violation(f: M.FlowRec, lib: Library): Expectation -> Findings {
    (e: Expectation) => When(e.path in f.at && !Meets(e.want, f.at[e.path], lib), Fail, ExpectationViolated, f.id)
  }

  function ViolationsOn(c: Claim, flows: seq<M.FlowRec>, lib: Library): string -> Findings {
    (id: string) =>
      if ById(flows, id).None? then [] else Each(c.expects, Violation(ById(flows, id).value, lib))
  }

  function Violations(flows: seq<M.FlowRec>, lib: Library): Claim -> Findings {
    (c: Claim) => Each(c.renders, ViolationsOn(c, flows, lib))
  }

  /** Some flow the claim licenses carries the field. */
  predicate Carried(c: Claim, path: string, flows: seq<M.FlowRec>) {
    exists id :: id in c.renders && ById(flows, id).Some? && path in ById(flows, id).value.at
  }

  function VacuousIn(satisfied: set<(string, string)>, c: Claim): Expectation -> Findings {
    (e: Expectation) => When((c.id, e.path) !in satisfied, Fail, ExpectationUnsatisfied, c.id)
  }

  function Vacuous(satisfied: set<(string, string)>): Claim -> Findings {
    (c: Claim) => Each(c.expects, VacuousIn(satisfied, c))
  }

  predicate Broken(q: Quantifier, actual: real) {
    if q.kind.Floor? then actual < q.value else actual > q.value
  }

  function Quantity(flows: seq<M.FlowRec>, lib: Library): Claim -> Findings {
    (c: Claim) =>
      if c.quantifier.None? then []
      else
        var q := c.quantifier.value;
        if c.unmodelledReason != "" then [Finding(Info, QuantityDeclaredUnmodelled, c.id)]
        else if q.unit in UNMEASURABLE then
          When(c.renders != [] && c.measurementNote == "", Warn, UnmeasurableQuantifier, c.id)
        else if Measure(q.unit, flows, lib).None? then [Finding(Fail, UnknownUnit, c.id)]
        else When(Broken(q, Measure(q.unit, flows, lib).value), Fail,
                  if q.kind.Floor? then FloorViolated else CeilingViolated, c.id)
  }

  // ---------------------------------------------------------------- findings about flows

  function CountId(flows: seq<M.FlowRec>, id: string): nat {
    if flows == [] then 0
    else CountId(flows[..|flows| - 1], id) + (if flows[|flows| - 1].id == id then 1 else 0)
  }

  function DupIds(flows: seq<M.FlowRec>, n: nat): seq<string>
    requires n <= |flows|
  {
    if n == 0 then []
    else DupIds(flows, n - 1) + (if CountId(flows, flows[n - 1].id) > 1 then [flows[n - 1].id] else [])
  }

  const DUPLICATE: string -> Findings := (id: string) => [Finding(Fail, DuplicateFlowId, id)]

  function BothWays(claims: seq<Claim>): string -> Findings {
    (id: string) => When(id in Rendered(claims), Fail, LicensedAndIllustrative, id)
  }

  function NotThere(ids: set<string>): string -> Findings {
    (id: string) => When(id !in ids, Fail, DanglingIllustrative, id)
  }

  function Unlicensed(cs: ClaimSet): M.FlowRec -> Findings {
    (f: M.FlowRec) =>
      When(f.id !in Rendered(cs.claims) && f.id !in cs.illustrative, Fail, Code.UnlicensedFlow, f.id)
  }

  /** Warnings only: the weakest licences are named. */
  function Sourcing(cs: ClaimSet): string -> Findings {
    (id: string) =>
      var licences := Licences(cs.claims, id);
      if licences == [] then []
      else
        var best := Best(licences);
        var src := SourceOf(cs.sources, best.source);
        if best.stance.Assumption? then [Finding(Warn, AssumptionOnly, id)]
        else When(src.Some? && src.value.preliminary && !src.value.aboutOwn, Warn, ThirdPartyPreliminary, id)
  }

  // ---------------------------------------------------------------- findings about markings

  predicate Addresses(sel: string, facts: seq<M.Fact>) {
    exists i :: 0 <= i < |facts| && M.SelectorScore(sel, facts[i].flowId, facts[i].path).Some?
  }

  function SelectorFinding(facts: seq<M.Fact>): string -> Findings {
    (sel: string) => When(!Addresses(sel, facts), Fail, DanglingSelector, sel)
  }

  /** A mark that cites a claim which itself has no source and quotation. */
  predicate Unsourced(m: M.Mark, claims: seq<Claim>, sources: set<string>) {
    && (m.icd203.Observed? || m.icd203.Judgment?) && m.claimRef != ""
    && FirstClaim(claims, m.claimRef).Some?
    && var c := FirstClaim(claims, m.claimRef).value;
    !(c.source in sources && c.quote != "")
  }

  function MarkFindings(cs: ClaimSet, facts: seq<M.Fact>): M.Mark -> Findings {
    (m: M.Mark) =>
      Each(m.selectors, SelectorFinding(facts))
      + When((m.icd203.Observed? || m.icd203.Judgment?) && m.claimRef == "", Fail, MarkingWithoutCitation, "")
      + When(m.icd203.Fabricated? && m.claimRef != "", Fail, FabricatedWithCitation, m.claimRef)
      + When(m.icd203.Observed? && m.pedigree < 3, Fail, PedigreeTooLow, "")
      + When(m.icd203.Observed? && m.derivation !in {Some(M.RetrievedFrom), Some(M.ImportedFrom)},
             Fail, DerivationNotAnchored, "")
      + When(m.icd203.Fabricated? && m.pedigree != 0, Fail, PedigreeOverclaimed, "")
      + When(m.claimRef != "" && m.claimRef !in ClaimIds(cs.claims), Fail, UnknownClaimRef, m.claimRef)
      + When(Unsourced(m, cs.claims, SourceIds(cs.sources)), Fail, UnsourcedMarking, m.claimRef)
  }

  function Marks(cs: ClaimSet): seq<M.Mark> {
    if cs.fieldMarkings.Some? then cs.fieldMarkings.value.marks else []
  }

  /** Positions of the marks that failed their sourcing check. */
  function InvalidMarks(cs: ClaimSet): set<nat> {
    set k: nat | k < |Marks(cs)| && Unsourced(Marks(cs)[k], cs.claims, SourceIds(cs.sources))
  }

  function ShadowFinding(fm: Option<M.FieldMarkings>): M.Fact -> Findings {
    (f: M.Fact) => When(M.Shadowed(fm, f), Warn, AleatoricShadowed, f.path)
  }

  /** The classes of the marks that resolve on the facts of some flows. */
  function MarkedClasses(fm: Option<M.FieldMarkings>, facts: seq<M.Fact>): seq<M.Icd> {
    if facts == [] then []
    else
      var f := facts[|facts| - 1];
      var mk := M.Resolve(fm, f.flowId, f.path);
      MarkedClasses(fm, facts[..|facts| - 1]) + (if mk.Some? then [fm.value.marks[mk.value].icd203] else [])
  }

  function RenderedFacts(flows: seq<M.FlowRec>, renders: seq<string>): seq<M.Fact> {
    if renders == [] then []
    else
      var f := ById(flows, renders[|renders| - 1]);
      RenderedFacts(flows, renders[..|renders| - 1]) + (if f.Some? then M.FactsOf(f.value) else [])
  }

  predicate AllObserved(icds: seq<M.Icd>) {
    icds != [] && forall i :: i in icds ==> i.Observed?
  }

  function PredictionFinding(cs: ClaimSet, flows: seq<M.FlowRec>): Prediction -> Findings {
    (p: Prediction) =>
      When(AllObserved(MarkedClasses(cs.fieldMarkings, RenderedFacts(flows, p.renders))), Fail, PredictionIsNot, p.id)
  }

  // ---------------------------------------------------------------- artifact class

  function GapCount(claims: seq<Claim>): nat {
    if claims == [] then 0
    else
      var c := claims[|claims| - 1];
      GapCount(claims[..|claims| - 1]) + (if c.renders == [] && c.unmodelledReason != "" then 1 else 0)
  }

  predicate Boilerplate(claims: seq<Claim>, lib: Library) {
    exists i, j :: 0 <= i < j < |claims| && claims[i].unmodelledReason != "" && claims[j].unmodelledReason != ""
                && lib.normal(claims[i].unmodelledReason) == lib.normal(claims[j].unmodelledReason)
  }

  function ClassFindings(cs: ClaimSet, observed: nat, lib: Library): Findings {
    if cs.exercise then []
    else
      When(observed == 0, Fail, NothingSourced, "")
      + When(forall c :: c in cs.claims ==> c.renders == [], Fail, NothingRendered, "")
      + When(2 * GapCount(cs.claims) > |cs.claims|, Fail, MostlyUnmodelled, "")
      + When(Boilerplate(cs.claims, lib), Warn, BoilerplateReason, "")
      + When(cs.sourceSummary == "", Fail, MissingSummary, "")
  }

  predicate HasFail(fs: Findings) {
    exists i :: 0 <= i < |fs| && fs[i].level.Fail?
  }

  function Advisory(fs: Findings): Findings {
    seq(|fs|, i requires 0 <= i < |fs| => if fs[i].level.Fail? then fs[i].(level := Warn) else fs[i])
  }

  /** An exercise keeps its findings as advice; a reconstruction with any failure fails once more. */
  function Conclude(cs: ClaimSet, fs: Findings): Findings {
    if cs.exercise then Advisory(fs) + [Finding(Info, ArtifactClass, "")]
    else fs + When(HasFail(fs), Fail, ClassNotEarned, "")
  }

  // ---------------------------------------------------------------- the whole

  function Observations(cs: ClaimSet, flows: seq<M.FlowRec>): nat {
    M.Count(M.AllFacts(flows), M.Global(cs.fieldMarkings, InvalidMarks(cs)), M.Marked(M.Observed))
  }

  ghost function SatisfiedPairs(claims: seq<Claim>, flows: seq<M.FlowRec>): set<(string, string)> {
    set c, e | c in claims && e in c.expects && Carried(c, e.path, flows) :: (c.id, e.path)
  }

  ghost function ClaimFindings(cs: ClaimSet, flows: seq<M.FlowRec>, lib: Library): Findings {
    Each(cs.claims, Backward)
    + Each(cs.claims, Conflict)
    + Each(cs.claims, Violations(flows, lib))
    + Each(cs.claims, Vacuous(SatisfiedPairs(cs.claims, flows)))
    + Each(cs.claims, Quantity(flows, lib))
  }

  function ForwardFindings(cs: ClaimSet, flows: seq<M.FlowRec>): Findings {
    Each(Dedup(DupIds(flows, |flows|)), DUPLICATE)
    + Each(Dedup(cs.illustrative), BothWays(cs.claims))
    + Each(Dedup(cs.illustrative), NotThere(M.IdsOf(flows)))
    + Each(flows, Unlicensed(cs))
  }

  function MarkingFindings(cs: ClaimSet, flows: seq<M.FlowRec>): Findings {
    Each(Marks(cs), MarkFindings(cs, M.AllFacts(flows)))
    + Each(M.AllFacts(flows), ShadowFinding(cs.fieldMarkings))
    + Each(cs.predictions, PredictionFinding(cs, flows))
  }

  /** Everything `check` finds, in order. */
  ghost function AllFindings(cs: ClaimSet, flows: seq<M.FlowRec>, lib: Library): Findings {
    Structure(cs.claims, SourceIds(cs.sources), M.IdsOf(flows))
    + ForwardFindings(cs, flows)
    + ClaimFindings(cs, flows, lib)
    + Each(Dedup(Rendered(cs.claims)), Sourcing(cs))
    + MarkingFindings(cs, flows)
    + ClassFindings(cs, Observations(cs, flows), lib)
  }

  // ---------------------------------------------------------------- census

  datatype Key = Licensed(stance: Stance) | Illustrative | UNLICENSED

  function KeyOf(cs: ClaimSet, id: string): Key {
    var licences := Licences(cs.claims, id);
    if licences != [] then Licensed(Best(licences).stance)
    else if id in cs.illustrative then Illustrative
    else UNLICENSED
  }

  function CountKey(cs: ClaimSet, ids: seq<string>, key: Key): nat {
    if ids == [] then 0
    else CountKey(cs, ids[..|ids| - 1], key) + (if KeyOf(cs, ids[|ids| - 1]) == key then 1 else 0)
  }

  function IdList(flows: seq<M.FlowRec>): seq<string> {
    seq(|flows|, i requires 0 <= i < |flows| => flows[i].id)
  }

  predicate IsAccounted(c: Claim) {
    c.renders != [] || c.unmodelledReason != "" || c.stance.SourceUnresolved?
  }

  function AccountedCount(claims: seq<Claim>): (n: nat)
    ensures n <= |claims|
  {
    if claims == [] then 0
    else AccountedCount(claims[..|claims| - 1]) + (if IsAccounted(claims[|claims| - 1]) then 1 else 0)
  }

  function Get(mix: map<Key, nat>, key: Key): nat {
    if key in mix then mix[key] else 0
  }

  datatype Report = Report(
    findings: Findings, stanceMix: map<Key, nat>, fieldMix: M.Mix, claimsUnaccounted: nat, networkFacts: nat)
  {
    predicate Ok() { !HasFail(findings) }
  }
}
