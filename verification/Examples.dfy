/** Concrete inputs on which the code does less than its documentation says. Each follows from an exact theorem. */
module Examples {
  import opened Seqs
  import opened Bytes
  import opened TcpModel
  import opened TcpMonitors
  import T = TcpTheorems
  import opened Timeline
  import TT = TimelineTheorems
  import M = Markings
  import W = Warrant
  import WT = WarrantTheorems
  import Compose
  import Ja3
  import Ssh

  const CLEAN: Texture := Texture(0.0, 0.0, 0.0, 0.0, false)

  /** A connection from 10.0.0.1:40000 to port 443 of another address. */
  function Link(respIp: string, rtt: real, segBytes: Option<int>, state: ConnState, isn: Word32): Conn {
    Conn(
      Endpoint(Addr("10.0.0.1", 40000), false), Endpoint(Addr(respIp, 443), false), 0.0, rtt, CLEAN, segBytes, 1,
      state, Rng((_: bool) => isn, (_: bool) => 1_000_000, (_: nat) => 0.0, (_: nat) => 0.0))
  }

  /** One byte sent with `seg_bytes = -1` never arrives. */
  lemma NegativeSizeDropsPayload()
    ensures
      var c, msgs := Link("10.0.0.2", 0.1, Some(-1), SF, 0), [Message(true, [7])];
      Received(c.End(true), Conversation(c, msgs).pkts).data != T.Payloads(msgs, true) == [7]
  {
    var c, msgs := Link("10.0.0.2", 0.1, Some(-1), SF, 0), [Message(true, [7])];
    assert T.Payloads(msgs, true) == [7] + T.Payloads([], true) == [7];
    T.StreamRecovered(c, msgs, true);
    hide Conversation;
    hide Received;
  }

  /** With the largest initial sequence number, the handshake itself already overflows. */
  lemma SequenceOverflows()
    ensures
      var c := Link("10.0.0.2", 0.1, None, SF, TWO_32 - 1);
      exists p :: p in Conversation(c, []).pkts && !T.Fits(p)
  {
    var c := Link("10.0.0.2", 0.1, None, SF, TWO_32 - 1);
    T.FieldsFit(c, []);
    assert T.SpaceUsed(c, []).orig >= TWO_32;
    hide Conversation;
  }

  /** With a negative rtt a refusal precedes the SYN it refuses. */
  lemma NegativeRttReorders()
    ensures !InTimeOrder(Conversation(Link("10.0.0.2", -0.1, None, REJ, 0), []).pkts)
  {
    T.ClockDiscipline(Link("10.0.0.2", -0.1, None, REJ, 0), []);
    hide Conversation;
  }

  /** Between two ports of one address the summary counts every packet as the originator's. */
  lemma OneAddressMiscounts()
    ensures
      var c := Link("10.0.0.1", 0.1, None, REJ, 0);
      ConnLog(Conversation(c, []).pkts) != Summarize(c, Conversation(c, []))
  {
    T.ConnLogAgrees(Link("10.0.0.1", 0.1, None, REJ, 0), []);
    hide Conversation;
    hide ConnLog;
  }

  /** An unanswered SYN that should last five seconds is logged with no duration at all. */
  lemma UnansweredDurationIgnored()
    ensures
      var c := Link("10.0.0.2", 0.1, None, S0, 0);
      ConnLog(TT.Select(c, Capture([TcpFlow(c, [], Some(5.0))]))).duration == 0.0
  {
    var c := Link("10.0.0.2", 0.1, None, S0, 0);
    var flows := [TcpFlow(c, [], Some(5.0))];
    assert TT.Mergeable(flows, 0);
    TT.AnsweredStretches(flows[0]);
    TT.RecordSurvivesMerge(flows, 0);
    hide TT.Select;
    hide Capture;
    hide ConnLog;
    hide Render;
  }

  /** A negative duration turns two packets round. */
  lemma NegativeDurationReverses(p: Packet)
    ensures !InTimeOrder(Rescale([p.(time := 0.0), p.(time := 1.0)], Some(-1.0)))
  {
    var pkts := [p.(time := 0.0), p.(time := 1.0)];
    var lo :| 0 <= lo < 2 && pkts[lo].time == MinTime(pkts);
    var hi :| 0 <= hi < 2 && pkts[hi].time == MaxTime(pkts);
    assert MinTime(pkts) <= pkts[0].time && pkts[1].time <= MaxTime(pkts);
    TT.RescaleOrder(pkts, Some(-1.0));
  }

  /** Two arrivals over one phase of no weight: one is lost. */
  lemma ZeroWeightLosesArrival()
    ensures Compose.Count(Compose.Allotment(2, [0.0])) != 2
  {
    assert Compose.Sum([0.0]) == 0.0;
    Compose.AllotmentTotal(2, [0.0]);
  }

  /** One aleatoric fact under a wildcard mark: the two censuses differ. */
  lemma DisputedFact()
    ensures
      var mark := M.Mark(["*"], M.Assumption, 0, None, "");
      !M.SameTotals([M.Fact("f", "rtt")], Some(M.FieldMarkings(["rtt"], [mark])), {})
  {
    var mark := M.Mark(["*"], M.Assumption, 0, None, "");
    var fm := M.FieldMarkings(["rtt"], [mark]);
    var fact := M.Fact("f", "rtt");
    M.HeadOf("*", "");
    assert M.SelectorScore("*", "f", "rtt").Some? && mark.selectors[0] == "*";
    assert M.Matches(mark, "f", "rtt");
    M.ResolveIsMostSpecific(fm, "f", "rtt");
    assert fm.marks[0] == mark;
    assert M.Shadowed(Some(fm), fact);
    assert fact in [fact];
    M.TotalsAgree([fact], Some(fm), {});
  }

  /** The id a record without a uid falls back to, its printed 5-tuple, holds dots. */
  lemma PrintedTupleUnaddressable(sel: string, fact: string)
    ensures
      var id := "('10.0.0.1', 40000, '10.0.0.2', 443, 'tcp')";
      M.SelectorScore(sel, id, fact).Some? ==> M.Head(sel) == "*"
  {
    var id := "('10.0.0.1', 40000, '10.0.0.2', 443, 'tcp')";
    assert id[4] == '.';
    M.AddressableIds(id, fact);
  }

  /** An open question with a reason is counted as unmodelled and not listed as a gap. */
  lemma OpenQuestionUnlisted()
    ensures
      var c := W.Claim("c", W.SourceUnresolved, "s", "q", None, [], "not established", "", []);
      WT.CodeCount(W.Each([c], W.Backward), W.Unmodelled) < W.GapCount([c])
  {
    var c := W.Claim("c", W.SourceUnresolved, "s", "q", None, [], "not established", "", []);
    assert WT.Unlisted(c) && c in [c];
    WT.GapsListed([c]);
  }

  /** A TLS 1.3 hello does not declare the fingerprint that was asked for. */
  lemma Tls13ChangesFingerprint(p: Ja3.Profile)
    ensures
      var s := Ja3.Ja3String(p);
      Ja3.ParseJa3(s).Some? && Ja3.Ja3String(Ja3.HelloProfile(Ja3.ParseJa3(s).value, false, true, false)) != s
  {
    Ja3.PrintedParses(p);
    Ja3.DeclaredIsRequested(Ja3.Ja3String(p), true, false);
  }

  /** A version string of one line feed is not read back. */
  lemma LineFeedBreaksBanner(fills: nat -> nat -> byte)
    ensures Ssh.ReadSide(Ssh.SideStream([Ssh.LF], [], fills)) != Some(Ssh.Side([Ssh.LF], []))
  {
    Ssh.SideReads([Ssh.LF], [], fills);
  }
}
