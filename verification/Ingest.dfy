/** `_flow_from_conn`, `_map_conn_state` and the counters of `IngestStats`. */
module Ingest {
  import opened Numbers
  import opened Seqs
  import opened Sampling
  import TcpModel

  datatype Kind = Icmp | Dns | Ntp | OpaqueUdp | Http | Tls | Ssh | Ftp | Ldap | Smb | OpaqueTcp

  /** Where a flow runs and when it starts. */
  datatype Ends = Ends(src: TcpModel.Addr, dst: TcpModel.Addr, start: real)

  /** What the conversion decides about a flow; `state` is present for TCP only. */
  datatype Built = Built(
    kind: Kind, state: Option<TcpModel.ConnState>, origBytes: nat, respBytes: nat, structureOnly: bool, ends: Ends)

  /** The record's own 5-tuple and time; ICMP has no ports. */
  function EndsOf(rec: Rec): Ends {
    if rec.proto.Icmp? then Ends(rec.orig.(port := 0), rec.resp.(port := 0), rec.ts)
    else Ends(rec.orig, rec.resp, rec.ts)
  }

  // ---------------------------------------------------------------- decisions

  function StripLeft(s: string): string {
    if s != [] && s[0] in " \t\n\r" then StripLeft(s[1..]) else s
  }

  function StripRight(s: string): string {
    if s != [] && s[|s| - 1] in " \t\n\r" then StripRight(s[..|s| - 1]) else s
  }

  /** The detected service, empty when there is none. */
  function Service(rec: Rec): string {
    var svc := StripRight(StripLeft(rec.service));
    if svc == "-" then "" else svc
  }

  function MapConnState(state: TcpModel.ConnState, isL7: bool, ob: nat, rb: nat): (r: (TcpModel.ConnState, bool))
    ensures r.0.Supported()
    ensures r.1 <==> r.0 != state
    ensures state.Supported() ==> r.0 == state
    ensures r.1 && r.0.S0? ==> !isL7 && (ob == 0 || rb == 0)
  {
    if state.Supported() then (state, false)
    else if isL7 then (TcpModel.SF, true)
    else (if ob != 0 && rb != 0 then TcpModel.SF else TcpModel.S0, true)
  }

  /** Which renderer a record gets; None is a UDP flow left to an analyzer. */
  function KindOf(rec: Rec): Option<Kind> {
    var svc := Service(rec);
    match rec.proto
    case Icmp => Some(Kind.Icmp)
    case Udp =>
      if svc == "dns" && rec.inDns then Some(Dns)
      else if svc == "ntp" then Some(Ntp)
      else if svc != "" then None
      else Some(OpaqueUdp)
    case Tcp =>
      if svc == "http" && rec.httpMethodSafe == Some(true) then Some(Http)
      else if svc == "ssl" && rec.sslVersionKnown == Some(true) then Some(Tls)
      else if svc == "ssh" then Some(Ssh)
      else if svc == "ftp" then Some(Ftp)
      else if svc == "ldap" then Some(Ldap)
      else if svc == "smb" then Some(Smb)
      else Some(OpaqueTcp)
  }

  predicate Analyzed(rec: Rec) {
    KindOf(rec) == Some(OpaqueTcp) && Service(rec) != ""
  }

  predicate Downgraded(rec: Rec) {
    rec.proto.Tcp? && Service(rec) == "ssl" && rec.sslVersionKnown == Some(false)
  }

  /** The rendered flow, as a function of the record. */
  function FlowOf(rec: Rec): Option<Built> {
    match KindOf(rec)
    case None => None
    case Some(kind) =>
      if kind.Icmp? || kind.Dns? || kind.Ntp? then Some(Built(kind, None, 0, 0, false, EndsOf(rec)))
      else if kind.OpaqueUdp? then Some(Built(kind, None, rec.origBytes, rec.respBytes, false, EndsOf(rec)))
      else if kind.OpaqueTcp? then
        var (ob, rb) := if Analyzed(rec) then (0, 0) else (rec.origBytes, rec.respBytes);
        Some(Built(kind, Some(MapConnState(rec.connState, false, ob, rb).0), ob, rb, Analyzed(rec), EndsOf(rec)))
      else
        var state := MapConnState(rec.connState, true, rec.origBytes, rec.respBytes).0;
        Some(Built(kind, Some(state), 0, 0, false, EndsOf(rec)))
  }

  // ---------------------------------------------------------------- what conversion keeps

  /** A flow's own story survives: every TCP flow can be compiled, and its state changes only if it must. */
  lemma StatesCompile(rec: Rec)
    ensures FlowOf(rec).Some? && rec.proto.Tcp? ==>
      && FlowOf(rec).value.state.Some?
      && FlowOf(rec).value.state.value.Supported()
      && (FlowOf(rec).value.state.value == rec.connState <==> rec.connState.Supported())
    ensures rec.proto.Tcp? ==> FlowOf(rec).Some?
    ensures FlowOf(rec).None? <==>
      rec.proto.Udp? && Service(rec) !in {"", "ntp"} && !(Service(rec) == "dns" && rec.inDns)
    ensures FlowOf(rec).Some? ==>
      && FlowOf(rec).value.ends.start == rec.ts
      && FlowOf(rec).value.ends.src.ip == rec.orig.ip && FlowOf(rec).value.ends.dst.ip == rec.resp.ip
      && (!rec.proto.Icmp? ==> FlowOf(rec).value.ends.src == rec.orig && FlowOf(rec).value.ends.dst == rec.resp)
  {
    match rec.proto
    case Tcp => assert KindOf(rec).Some?;
    case Udp =>
    case Icmp =>
  }

  /** Opaque flows carry the record's exact byte counts exactly when no service was detected, or there were none. */
  lemma OpaqueVolumes(rec: Rec)
    requires KindOf(rec) == Some(OpaqueTcp) || KindOf(rec) == Some(OpaqueUdp)
    ensures
      (FlowOf(rec).value.origBytes == rec.origBytes && FlowOf(rec).value.respBytes == rec.respBytes)
      <==> Service(rec) == "" || (rec.origBytes == 0 && rec.respBytes == 0)
  {
  }

  // ---------------------------------------------------------------- counters

  function Count(recs: seq<Rec>, p: Rec -> bool): nat {
    if recs == [] then 0 else Count(recs[..|recs| - 1], p) + (if p(recs[|recs| - 1]) then 1 else 0)
  }

  function OfKind(kind: Kind): Rec -> bool {
    (rec: Rec) => KindOf(rec) == Some(kind)
  }

  const BUILT: Rec -> bool := (rec: Rec) => KindOf(rec).Some?
  const SKIPPED: Rec -> bool := (rec: Rec) => KindOf(rec).None?
  const STRUCTURE: Rec -> bool := (rec: Rec) => Analyzed(rec)
  const DOWNGRADED: Rec -> bool := (rec: Rec) => Downgraded(rec)

  /** The flow's connection state is not the record's. */
  const REWRITTEN: Rec -> bool := (rec: Rec) => rec.proto.Tcp? && !rec.connState.Supported()

  /** The kinds whose branch discards what `_map_conn_state` says about substitution. */
  predicate Unreported(kind: Option<Kind>) {
    kind in {Some(Ssh), Some(Ftp), Some(Ldap), Some(Smb)}
  }

  const REPORTED: Rec -> bool := (rec: Rec) => REWRITTEN(rec) && !Unreported(KindOf(rec))
  const MISSED: Rec -> bool := (rec: Rec) => REWRITTEN(rec) && Unreported(KindOf(rec))

  function Get(m: map<Kind, nat>, kind: Kind): nat {
    if kind in m then m[kind] else 0
  }

  function SumKinds(m: map<Kind, nat>): nat {
    Get(m, Kind.Icmp) + Get(m, Dns) + Get(m, Ntp) + Get(m, OpaqueUdp) + Get(m, Http) + Get(m, Tls)
      + Get(m, Ssh) + Get(m, Ftp) + Get(m, Ldap) + Get(m, Smb) + Get(m, OpaqueTcp)
  }

  lemma {:induction false} BuiltOrSkipped(recs: seq<Rec>)
    ensures Count(recs, BUILT) + Count(recs, SKIPPED) == |recs|
  {
    if recs != [] {
      BuiltOrSkipped(recs[..|recs| - 1]);
    }
  }

  lemma {:induction false} ReportedOrMissed(recs: seq<Rec>)
    ensures Count(recs, REPORTED) + Count(recs, MISSED) == Count(recs, REWRITTEN)
  {
    if recs != [] {
      ReportedOrMissed(recs[..|recs| - 1]);
    }
  }

  lemma {:induction false} NoneMissed(recs: seq<Rec>)
    ensures Count(recs, MISSED) == 0 <==> forall rec :: rec in recs ==> !MISSED(rec)
  {
    if recs != [] {
      var n := |recs| - 1;
      NoneMissed(recs[..n]);
      assert recs == recs[..n] + [recs[n]];
    }
  }

  lemma OneKind(rec: Rec)
    ensures (if OfKind(Kind.Icmp)(rec) then 1 else 0) + (if OfKind(Dns)(rec) then 1 else 0)
          + (if OfKind(Ntp)(rec) then 1 else 0) + (if OfKind(OpaqueUdp)(rec) then 1 else 0)
          + (if OfKind(Http)(rec) then 1 else 0) + (if OfKind(Tls)(rec) then 1 else 0)
          + (if OfKind(Ssh)(rec) then 1 else 0) + (if OfKind(Ftp)(rec) then 1 else 0)
          + (if OfKind(Ldap)(rec) then 1 else 0) + (if OfKind(Smb)(rec) then 1 else 0)
          + (if OfKind(OpaqueTcp)(rec) then 1 else 0) == if BUILT(rec) then 1 else 0
  {
    hide KindOf;
    match KindOf(rec)
    case None =>
    case Some(kind) =>
      assert kind.Icmp? || kind.Dns? || kind.Ntp? || kind.OpaqueUdp? || kind.Http? || kind.Tls?
          || kind.Ssh? || kind.Ftp? || kind.Ldap? || kind.Smb? || kind.OpaqueTcp?;
  }

  lemma {:induction false} KindsPartition(recs: seq<Rec>)
    ensures Count(recs, OfKind(Kind.Icmp)) + Count(recs, OfKind(Dns)) + Count(recs, OfKind(Ntp))
          + Count(recs, OfKind(OpaqueUdp)) + Count(recs, OfKind(Http)) + Count(recs, OfKind(Tls))
          + Count(recs, OfKind(Ssh)) + Count(recs, OfKind(Ftp)) + Count(recs, OfKind(Ldap))
          + Count(recs, OfKind(Smb)) + Count(recs, OfKind(OpaqueTcp)) == Count(recs, BUILT)
  {
    hide OfKind;
    if recs != [] {
      KindsPartition(recs[..|recs| - 1]);
      OneKind(recs[|recs| - 1]);
    }
  }

  ghost predicate Matches(
    recs: seq<Rec>, byKind: map<Kind, nat>, skipped: nat, structure: nat, downgraded: nat, substituted: nat)
  {
    && (forall kind :: Get(byKind, kind) == Count(recs, OfKind(kind)))
    && skipped == Count(recs, SKIPPED)
    && structure == Count(recs, STRUCTURE)
    && downgraded == Count(recs, DOWNGRADED)
    && substituted == Count(recs, REPORTED)
  }

  class IngestStats {
    var totalConn: nat
    var emitted: nat
    var byKind: map<Kind, nat>
    var substitutedConnState: nat
    var tlsDowngradedToOpaque: nat
    var structureOnly: nat
    var skippedAnalyzerUdp: nat

    constructor (total: nat)
      ensures totalConn == total && emitted == 0 && byKind == map[] && substitutedConnState == 0
      ensures tlsDowngradedToOpaque == 0 && structureOnly == 0 && skippedAnalyzerUdp == 0
    {
      totalConn, emitted, byKind, substitutedConnState := total, 0, map[], 0;
      tlsDowngradedToOpaque, structureOnly, skippedAnalyzerUdp := 0, 0, 0;
    }

    method Bump(kind: Kind)
      modifies this`byKind
      ensures byKind == old(byKind)[kind := Get(old(byKind), kind) + 1]
    {
      byKind := byKind[kind := Get(byKind, kind) + 1];
    }

    /** The counters are those of the records converted so far. */
    ghost predicate Reports(recs: seq<Rec>)
      reads this
    {
      Matches(recs, byKind, skippedAnalyzerUdp, structureOnly, tlsDowngradedToOpaque, substitutedConnState)
    }

    method FlowFromConn(rec: Rec) returns (built: Option<Built>)
      modifies this`byKind, this`skippedAnalyzerUdp, this`structureOnly, this`tlsDowngradedToOpaque
      modifies this`substitutedConnState
      ensures built == FlowOf(rec)
      ensures KindOf(rec).Some? ==> byKind == old(byKind)[KindOf(rec).value := Get(old(byKind), KindOf(rec).value) + 1]
      ensures KindOf(rec).None? ==> byKind == old(byKind)
      ensures skippedAnalyzerUdp == old(skippedAnalyzerUdp) + (if SKIPPED(rec) then 1 else 0)
      ensures structureOnly == old(structureOnly) + (if STRUCTURE(rec) then 1 else 0)
      ensures tlsDowngradedToOpaque == old(tlsDowngradedToOpaque) + (if DOWNGRADED(rec) then 1 else 0)
      ensures substitutedConnState == old(substitutedConnState) + (if REPORTED(rec) then 1 else 0)
    {
      hide Service;
      hide MapConnState;
      hide Get;
      var svc := Service(rec);
      var ob, rb := rec.origBytes, rec.respBytes;
      if rec.proto.Icmp? {
        Bump(Kind.Icmp);
        return Some(Built(Kind.Icmp, None, 0, 0, false, EndsOf(rec)));
      }
      if rec.proto.Udp? {
        if svc == "dns" && rec.inDns {
          Bump(Dns);
          return Some(Built(Dns, None, 0, 0, false, EndsOf(rec)));
        }
        if svc == "ntp" {
          Bump(Ntp);
          return Some(Built(Ntp, None, 0, 0, false, EndsOf(rec)));
        }
        if svc != "" {
          skippedAnalyzerUdp := skippedAnalyzerUdp + 1;
          return None;
        }
        Bump(OpaqueUdp);
        return Some(Built(OpaqueUdp, None, ob, rb, false, EndsOf(rec)));
      }
      built := FlowFromTcp(rec, svc);
    }

    method FlowFromTcp(rec: Rec, svc: string) returns (built: Option<Built>)
      requires rec.proto.Tcp? && svc == Service(rec)
      modifies this`byKind, this`structureOnly, this`tlsDowngradedToOpaque, this`substitutedConnState
      ensures built == FlowOf(rec)
      ensures KindOf(rec).Some? && byKind == old(byKind)[KindOf(rec).value := Get(old(byKind), KindOf(rec).value) + 1]
      ensures structureOnly == old(structureOnly) + (if STRUCTURE(rec) then 1 else 0)
      ensures tlsDowngradedToOpaque == old(tlsDowngradedToOpaque) + (if DOWNGRADED(rec) then 1 else 0)
      ensures substitutedConnState == old(substitutedConnState) + (if REPORTED(rec) then 1 else 0)
    {
      hide Service;
      hide MapConnState;
      hide Get;
      var ob, rb := rec.origBytes, rec.respBytes;
      var (cs, sub) := MapConnState(rec.connState, true, ob, rb);
      if svc == "http" && rec.httpMethodSafe == Some(true) {
        Bump(Http);
        if sub {
          substitutedConnState := substitutedConnState + 1;
        }
        return Some(Built(Http, Some(cs), 0, 0, false, EndsOf(rec)));
      }
      if svc == "ssl" && rec.sslVersionKnown.Some? {
        if !rec.sslVersionKnown.value {
          tlsDowngradedToOpaque := tlsDowngradedToOpaque + 1;
        } else {
          Bump(Tls);
          if sub {
            substitutedConnState := substitutedConnState + 1;
          }
          return Some(Built(Tls, Some(cs), 0, 0, false, EndsOf(rec)));
        }
      }
      if svc == "ssh" || svc == "ftp" || svc == "ldap" || svc == "smb" {
        var kind := if svc == "ssh" then Ssh else if svc == "ftp" then Ftp else if svc == "ldap" then Ldap else Smb;
        Bump(kind);
        return Some(Built(kind, Some(cs), 0, 0, false, EndsOf(rec)));
      }
      built := FlowFromOpaque(rec, svc);
    }

    /** Opaque TCP: structure only where a service was detected, exact byte counts otherwise. */
    method FlowFromOpaque(rec: Rec, svc: string) returns (built: Option<Built>)
      requires KindOf(rec) == Some(OpaqueTcp) && svc == Service(rec)
      modifies this`byKind, this`structureOnly, this`substitutedConnState
      ensures built == FlowOf(rec)
      ensures byKind == old(byKind)[OpaqueTcp := Get(old(byKind), OpaqueTcp) + 1]
      ensures structureOnly == old(structureOnly) + (if STRUCTURE(rec) then 1 else 0)
      ensures substitutedConnState == old(substitutedConnState) + (if REPORTED(rec) then 1 else 0)
    {
      hide Service;
      hide MapConnState;
      hide Get;
      var ob, rb := rec.origBytes, rec.respBytes;
      var structure := svc != "";
      if structure {
        ob, rb := 0, 0;
        structureOnly := structureOnly + 1;
      }
      var (cs, sub) := MapConnState(rec.connState, false, ob, rb);
      Bump(OpaqueTcp);
      if sub {
        substitutedConnState := substitutedConnState + 1;
      }
      return Some(Built(OpaqueTcp, Some(cs), ob, rb, structure, EndsOf(rec)));
    }

    /** One record more: its flow, and counters that report it too. */
    method Convert(rec: Rec, ghost recs: seq<Rec>) returns (built: Option<Built>)
      requires Reports(recs)
      modifies this`byKind, this`skippedAnalyzerUdp, this`structureOnly, this`tlsDowngradedToOpaque
      modifies this`substitutedConnState
      ensures built == FlowOf(rec) && Reports(recs + [rec])
    {
      hide Matches;
      hide KindOf;
      hide FlowOf;
      hide Get;
      MatchesStep(recs, rec, byKind, skippedAnalyzerUdp, structureOnly, tlsDowngradedToOpaque, substitutedConnState);
      built := FlowFromConn(rec);
    }
  }

  /** The flows of the records that give one, in order. */
  function FlowsOf(recs: seq<Rec>): seq<Built> {
    if recs == [] then []
    else
      var last := FlowOf(recs[|recs| - 1]);
      FlowsOf(recs[..|recs| - 1]) + (if last.Some? then [last.value] else [])
  }

  lemma CountSnoc(recs: seq<Rec>, rec: Rec, p: Rec -> bool)
    ensures Count(recs + [rec], p) == Count(recs, p) + (if p(rec) then 1 else 0)
  {
    assert (recs + [rec])[..|recs|] == recs;
  }

  /** How one more record moves each counter. */
  lemma MatchesStep(
    recs: seq<Rec>, rec: Rec, byKind: map<Kind, nat>, skipped: nat, structure: nat, downgraded: nat, substituted: nat)
    requires Matches(recs, byKind, skipped, structure, downgraded, substituted)
    ensures Matches(
      recs + [rec],
      if KindOf(rec).Some? then byKind[KindOf(rec).value := Get(byKind, KindOf(rec).value) + 1] else byKind,
      skipped + (if SKIPPED(rec) then 1 else 0), structure + (if STRUCTURE(rec) then 1 else 0),
      downgraded + (if DOWNGRADED(rec) then 1 else 0), substituted + (if REPORTED(rec) then 1 else 0))
  {
    hide Count;
    hide KindOf;
    forall kind ensures Count(recs + [rec], OfKind(kind))
        == Count(recs, OfKind(kind)) + (if KindOf(rec) == Some(kind) then 1 else 0)
    {
      CountSnoc(recs, rec, OfKind(kind));
    }
    CountSnoc(recs, rec, SKIPPED);
    CountSnoc(recs, rec, STRUCTURE);
    CountSnoc(recs, rec, DOWNGRADED);
    CountSnoc(recs, rec, REPORTED);
  }

  /** What the totals of a report add up to. */
  lemma {:induction false} TotalsAddUp(
    recs: seq<Rec>, byKind: map<Kind, nat>, skipped: nat, structure: nat, downgraded: nat, substituted: nat)
    requires Matches(recs, byKind, skipped, structure, downgraded, substituted)
    ensures SumKinds(byKind) == Count(recs, BUILT) && SumKinds(byKind) + skipped == |recs|
    ensures substituted <= Count(recs, REWRITTEN)
    ensures substituted == Count(recs, REWRITTEN) <==> forall rec :: rec in recs ==> !MISSED(rec)
  {
    KindsPartition(recs);
    BuiltOrSkipped(recs);
    ReportedOrMissed(recs);
    NoneMissed(recs);
  }

  /**
   Converts the selected records. Every one is emitted under exactly one kind or reported as
   skipped; a rewritten connection state is reported, except on ssh, ftp, ldap and smb flows.
   */
  method ConvertAll(selected: seq<Rec>, total: nat) returns (flows: seq<Built>, stats: IngestStats)
    ensures fresh(stats) && stats.totalConn == total && stats.Reports(selected)
    ensures flows == FlowsOf(selected) && stats.emitted == |flows|
    ensures SumKinds(stats.byKind) == stats.emitted
    ensures stats.emitted + stats.skippedAnalyzerUdp == |selected|
    ensures stats.substitutedConnState <= Count(selected, REWRITTEN)
    ensures stats.substitutedConnState == Count(selected, REWRITTEN)
       <==> forall rec :: rec in selected ==> !MISSED(rec)
  {
    hide Matches;
    hide Count;
    hide SumKinds;
    hide FlowsOf;
    flows, stats := ConvertEach(selected, total);
    TotalsAddUp(selected, stats.byKind, stats.skippedAnalyzerUdp, stats.structureOnly, stats.tlsDowngradedToOpaque,
                stats.substitutedConnState);
    FlowsSoFar(selected);
    stats.emitted := |flows|;
  }

  method ConvertEach(selected: seq<Rec>, total: nat) returns (flows: seq<Built>, stats: IngestStats)
    ensures fresh(stats) && stats.totalConn == total && stats.Reports(selected)
    ensures flows == FlowsOf(selected)
  {
    stats := new IngestStats(total);
    flows := [];
    assert stats.Reports([]);
    FlowsSoFar([]);
    hide *;
    for i := 0 to |selected|
      invariant fresh(stats) && stats.totalConn == total
      invariant stats.Reports(selected[..i])
      invariant flows == FlowsOf(selected[..i])
    {
      var before, rec := selected[..i], selected[i];
      assert selected[..i + 1] == before + [rec];
      FlowsStep(before, rec);
      var built := stats.Convert(rec, before);
      if built.Some? {
        flows := flows + [built.value];
      }
    }
    assert selected[..|selected|] == selected;
  }

  function FlowBytes(flows: seq<Built>): nat {
    if flows == [] then 0
    else
      var f := flows[|flows| - 1];
      FlowBytes(flows[..|flows| - 1]) + f.origBytes + f.respBytes
  }

  predicate IsOpaque(rec: Rec) {
    KindOf(rec) == Some(OpaqueTcp) || KindOf(rec) == Some(OpaqueUdp)
  }

  function OpaqueBytes(recs: seq<Rec>): nat {
    if recs == [] then 0
    else
      var rec := recs[|recs| - 1];
      OpaqueBytes(recs[..|recs| - 1]) + (if IsOpaque(rec) then rec.origBytes + rec.respBytes else 0)
  }

  /** A detected service whose bytes are not rendered. */
  predicate Silenced(rec: Rec) {
    Analyzed(rec) && rec.origBytes + rec.respBytes > 0
  }

  /**
   The opaque flows of an ingest carry all the bytes of the records they stand for exactly when no
   record with bytes was rendered structure-only.
   */
  lemma {:induction false} VolumesKept(recs: seq<Rec>)
    ensures FlowBytes(FlowsOf(recs)) <= OpaqueBytes(recs)
    ensures FlowBytes(FlowsOf(recs)) == OpaqueBytes(recs) <==> forall rec :: rec in recs ==> !Silenced(rec)
  {
    if recs != [] {
      var n := |recs| - 1;
      var before, rec := recs[..n], recs[n];
      assert recs == before + [rec];
      VolumesKept(before);
      FlowsStep(before, rec);
      OneVolume(FlowsOf(before), rec);
      hide FlowsOf;
      hide FlowBytes;
      hide FlowOf;
      hide IsOpaque;
      assert (forall r :: r in recs ==> !Silenced(r)) <==> (forall r :: r in before ==> !Silenced(r)) && !Silenced(rec);
    }
  }

  lemma OneVolume(flows: seq<Built>, rec: Rec)
    ensures
      var more := flows + (if FlowOf(rec).Some? then [FlowOf(rec).value] else []);
      var own := if IsOpaque(rec) && !Analyzed(rec) then rec.origBytes + rec.respBytes else 0;
      FlowBytes(more) == FlowBytes(flows) + own
    ensures Analyzed(rec) ==> IsOpaque(rec)
  {
    if FlowOf(rec).Some? {
      assert (flows + [FlowOf(rec).value])[..|flows|] == flows;
    } else {
      assert flows + [] == flows;
    }
  }

  lemma FlowsStep(recs: seq<Rec>, rec: Rec)
    ensures FlowsOf(recs + [rec]) == FlowsOf(recs) + (if FlowOf(rec).Some? then [FlowOf(rec).value] else [])
  {
    assert (recs + [rec])[..|recs|] == recs;
  }

  lemma {:induction false} FlowsSoFar(recs: seq<Rec>)
    ensures FlowsOf([]) == [] && |FlowsOf(recs)| == Count(recs, BUILT)
  {
    hide KindOf;
    if recs != [] {
      FlowsSoFar(recs[..|recs| - 1]);
    }
  }

  const ENDPOINT: TcpModel.Addr := TcpModel.Addr("10.0.0.1", 22)

  /** An unreported rewrite: an ssh connection still open at the end of the log becomes a closed one. */
  lemma SshRewriteUnreported()
    ensures
      var rec := Rec(Proto.Tcp, "ssh", ENDPOINT, ENDPOINT, 0.0, TcpModel.OtherState("S1"), 0, 0, false, None, None);
      MISSED(rec) && !REPORTED(rec) && FlowOf(rec).Some? && FlowOf(rec).value.state == Some(TcpModel.SF)
  {
    var rec := Rec(Proto.Tcp, "ssh", ENDPOINT, ENDPOINT, 0.0, TcpModel.OtherState("S1"), 0, 0, false, None, None);
    assert 's' !in " \t\n\r" && 'h' !in " \t\n\r";
    assert StripLeft("ssh") == "ssh" && StripRight("ssh") == "ssh";
    assert Service(rec) == "ssh" && KindOf(rec) == Some(Ssh);
    assert REWRITTEN(rec) && Unreported(KindOf(rec));
  }

  /** The whole ingest: sample, then convert. */
  method FlowsetFromEvidenceforge(conns: seq<Rec>, limit: Option<int>, rank: Key -> real)
    returns (flows: seq<Built>, stats: IngestStats, ghost selected: seq<Rec>)
    ensures fresh(stats) && stats.totalConn == |conns| && stats.Reports(selected)
    ensures flows == FlowsOf(selected)
    ensures SumKinds(stats.byKind) == stats.emitted == |flows|
    ensures stats.emitted + stats.skippedAnalyzerUdp == |selected|
    ensures |selected| == if limit.None? then |conns| else Min(if limit.value < 0 then 0 else limit.value, |conns|)
    ensures limit.None? ==> selected == conns
    ensures limit.Some? ==> forall key :: PrefixOfGroup(conns, selected, key)
    ensures limit.Some? ==> forall a, b :: EvenlySpread(conns, selected, a, b)
  {
    var chosen := Select(conns, limit, rank);
    flows, stats := ConvertAll(chosen, |conns|);
    selected := chosen;
  }
}
