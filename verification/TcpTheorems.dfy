/** What independent readers recover from a rendered conversation, for every message list, texture and draw. */
module TcpTheorems {
  import opened Numbers
  import opened Seqs
  import opened Bytes
  import opened Segmentation
  import opened TcpModel
  import opened TcpMonitors
  import opened TcpProofs

  // ---------------------------------------------------------------- opening

  function Hello1(c: Conn): Conv {
    Emit(c, Start(c), true, FlagS, c.Isn(true), 0, [], Syn, c.Half())
  }

  function Hello2(c: Conn): Conv {
    Emit(c, Hello1(c), false, FlagSA, c.Isn(false), c.Isn(true) + 1, [], SynAck, c.Half())
  }

  function Hello3(c: Conn): Conv {
    Emit(c, Hello2(c), true, FlagA, c.Isn(true) + 1, c.Isn(false) + 1, [], PureAck, 0.0)
  }

  lemma SynClocked(c: Conn, advance: real)
    requires Distinct(c) && (c.rtt >= 0.0 ==> advance >= 0.0)
    ensures Clocked(c, Emit(c, Start(c), true, FlagS, c.Isn(true), 0, [], Syn, advance))
    ensures CountsAgree(c, Emit(c, Start(c), true, FlagS, c.Isn(true), 0, [], Syn, advance).pkts)
  {
    EmitClocked(c, Start(c), true, FlagS, c.Isn(true), 0, [], Syn, advance);
    EmitCounts(c, Start(c), true, FlagS, c.Isn(true), 0, [], Syn, advance);
  }

  lemma HandshakeClocked(c: Conn)
    requires Distinct(c)
    ensures Clocked(c, Hello3(c))
  {
    hide Clocked;
    hide CountsAgree;
    hide Emit;
    hide Start;
    hide Conn.Isn;
    SynClocked(c, c.Half());
    EmitClocked(c, Hello1(c), false, FlagSA, c.Isn(false), c.Isn(true) + 1, [], SynAck, c.Half());
    EmitClocked(c, Hello2(c), true, FlagA, c.Isn(true) + 1, c.Isn(false) + 1, [], PureAck, 0.0);
  }

  lemma HandshakeCounted(c: Conn)
    requires Distinct(c)
    ensures CountsAgree(c, Hello3(c).pkts)
  {
    hide Clocked;
    hide CountsAgree;
    hide ObserverAgrees;
    hide Emit;
    hide Start;
    hide Conn.Isn;
    hide Observed;
    hide Opened;
    SynClocked(c, c.Half());
    HandshakeObserver(c);
    HelloNonempty(c);
    EmitCounts(c, Hello1(c), false, FlagSA, c.Isn(false), c.Isn(true) + 1, [], SynAck, c.Half());
    EmitCounts(c, Hello2(c), true, FlagA, c.Isn(true) + 1, c.Isn(false) + 1, [], PureAck, 0.0);
  }

  lemma HelloNonempty(c: Conn)
    ensures Hello1(c).pkts != [] && Hello2(c).pkts != [] && Opened(c, Hello3(c).pkts)
  {
    hide Record;
    hide TsVal;
  }

  const NONE_YET := Pair(false, false)

  lemma SynObserved(c: Conn, advance: real)
    ensures var st := Emit(c, Start(c), true, FlagS, c.Isn(true), 0, [], Syn, advance);
            && st.chars == "S"
            && Observed(st.pkts) == Zeek(Some(c.orig.addr), true, false, NONE_YET, NONE_YET, Pair(c.Isn(true) + 1, 0),
                                         Pair(0, 0), Pair(1, 0), Pair(true, true), "S")
  {
    ObservedSnoc([], Frame(c, Start(c), true, FlagS, c.Isn(true), 0, []));
  }

  lemma SynAckObserved(c: Conn)
    requires Distinct(c)
    ensures Hello2(c).chars == "Sh"
    ensures Observed(Hello2(c).pkts)
         == Zeek(Some(c.orig.addr), true, true, NONE_YET, NONE_YET, FirstSeqs(c),
                 Pair(0, 0), Pair(1, 1), Pair(true, true), "Sh")
  {
    SynObserved(c, c.Half());
    var p := Frame(c, Hello1(c), false, FlagSA, c.Isn(false), c.Isn(true) + 1, []);
    ObservedSnoc(Hello1(c).pkts, p);
    assert Classify(p, 0) == SynAck;
  }

  lemma {:induction false} HandshakeObserver(c: Conn)
    requires Distinct(c)
    ensures Observed(Hello1(c).pkts).origin == Some(c.orig.addr)
    ensures Observed(Hello2(c).pkts).origin == Some(c.orig.addr)
    ensures ObserverAgrees(c, Talk(Hello3(c), FirstSeqs(c)))
  {
    hide Observed;
    hide TsVal;
    hide Start;
    hide Conn.Isn;
    SynObserved(c, c.Half());
    SynAckObserved(c);
    var p := Frame(c, Hello2(c), true, FlagA, c.Isn(true) + 1, c.Isn(false) + 1, []);
    ObservedSnoc(Hello2(c).pkts, p);
    AckFollows(c, p);
    HelloRecord(c);
  }

  lemma HelloRecord(c: Conn)
    requires Distinct(c)
    ensures
      var p := Frame(c, Hello2(c), true, FlagA, c.Isn(true) + 1, c.Isn(false) + 1, []);
      && Hello3(c).pkts == Hello2(c).pkts + [p]
      && Hello3(c).chars == "ShA" && Hello3(c).bytes == Pair(0, 0) && Hello3(c).retransmitted == NONE_YET
  {
    hide TsVal;
    hide Conn.Isn;
    SynAckObserved(c);
  }

  /** The step from the handshake's last acknowledgment to an open, empty conversation. */
  lemma AckFollows(c: Conn, p: Packet)
    requires p.src == c.orig.addr && p.flags == FlagA && p.payload == [] && p.seqNo == c.Isn(true) + 1
    ensures
      var z := Zeek(Some(c.orig.addr), true, true, NONE_YET, NONE_YET, FirstSeqs(c),
                    Pair(0, 0), Pair(1, 1), Pair(true, true), "Sh");
      Follows(ZeekStep(z, p), c.orig.addr, FirstSeqs(c), Pair(0, 0), "ShA", NONE_YET)
  {
    hide Conn.Isn;
    assert Classify(p, c.Isn(true) + 1) == PureAck;
  }

  lemma HandshakeReceiver(c: Conn)
    requires Distinct(c)
    ensures ReceiverAgrees(c, Talk(Hello3(c), FirstSeqs(c)), Pair([], []))
  {
    forall src | src in {c.orig.addr, c.resp.addr}
      ensures Received(src, Hello3(c).pkts)
           == Rx(Some(if src == c.orig.addr then c.Isn(true) + 1 else c.Isn(false) + 1), [], false, false)
    {
      ReceivedSnoc(src, [], Frame(c, Start(c), true, FlagS, c.Isn(true), 0, []));
      ReceivedSnoc(src, Hello1(c).pkts, Frame(c, Hello1(c), false, FlagSA, c.Isn(false), c.Isn(true) + 1, []));
      ReceivedSnoc(src, Hello2(c).pkts,
                   Frame(c, Hello2(c), true, FlagA, c.Isn(true) + 1, c.Isn(false) + 1, []));
    }
  }

  lemma SynAudited(c: Conn)
    ensures Audited(c.orig.addr, Hello1(c).pkts)
         == Audit(Pair(true, false), Pair(c.Isn(true) + 1, 0), Pair(c.Isn(true) + 1, 0), Pair(0, 0), true)
  {
    hide TsVal;
    AuditedSnoc(c.orig.addr, [], Frame(c, Start(c), true, FlagS, c.Isn(true), 0, []));
  }

  lemma HandshakeAuditor(c: Conn)
    requires Distinct(c)
    ensures AuditorAgrees(c, Talk(Hello3(c), FirstSeqs(c)))
  {
    hide Audited;
    hide TsVal;
    hide Record;
    hide Start;
    var o := c.orig.addr;
    SynAudited(c);
    AuditedSnoc(o, Hello1(c).pkts, Frame(c, Hello1(c), false, FlagSA, c.Isn(false), c.Isn(true) + 1, []));
    AuditedSnoc(o, Hello2(c).pkts, Frame(c, Hello2(c), true, FlagA, c.Isn(true) + 1, c.Isn(false) + 1, []));
  }

  lemma HandshakeInSync(c: Conn)
    requires Distinct(c)
    ensures Sync(c, Talk(Hello3(c), FirstSeqs(c)), Pair([], []))
  {
    HandshakeReceiver(c);
    HandshakeObserver(c);
    HandshakeAuditor(c);
    HandshakeClocked(c);
    HandshakeCounted(c);
    HelloNonempty(c);
    hide ReceiverAgrees;
    hide ObserverAgrees;
    hide AuditorAgrees;
    hide CountsAgree;
    hide Clocked;
    hide Opened;
    assert Hello3(c).bytes == Pair(0, 0);
  }

  /** The conversation up to the teardown. */
  function Exchanged(c: Conn, msgs: seq<Message>): Talk {
    SendAll(c, Talk(Opening(c), FirstSeqs(c)), msgs)
  }

  function Carries(c: Conn, msgs: seq<Message>): Pair<bytes> {
    Pair(AllCarried(c, msgs, true), AllCarried(c, msgs, false))
  }

  lemma ExchangeInSync(c: Conn, msgs: seq<Message>)
    requires Distinct(c) && c.state.Established()
    ensures Sync(c, Exchanged(c, msgs), Carries(c, msgs))
  {
    var t := Talk(Hello3(c), FirstSeqs(c));
    assert Opening(c) == Hello3(c);
    HandshakeInSync(c);
    hide Sync;
    hide Opening;
    hide Hello3;
    SyncMessages(c, t, Pair([], []), msgs);
    assert [] + AllCarried(c, msgs, true) == AllCarried(c, msgs, true);
    assert [] + AllCarried(c, msgs, false) == AllCarried(c, msgs, false);
  }

  // ---------------------------------------------------------------- teardown

  lemma LingerIdles(c: Conn, st: Conv)
    ensures Idles(c, st, Linger(c, st))
  {
    if c.rtt >= 0.0 {
      var s1 :=
        if c.texture.lingerScale == 0.0 then st
        else if !(c.rng.unit(st.k) < 0.5) then st.(k := st.k + 1)
        else Wait(st, Gap(MinReal(250.0, c.rng.tail(st.k + 1)), st.k + 2));
      JitForward(c, s1.k + 1, 0.02 + (0.2 - 0.02) * c.rng.unit(s1.k));
    }
  }

  /** The state in which the teardown begins. */
  function Lingered(c: Conn, msgs: seq<Message>): Talk {
    Talk(Linger(c, Exchanged(c, msgs).st), Exchanged(c, msgs).seqs)
  }

  lemma LingeredInSync(c: Conn, msgs: seq<Message>)
    requires Distinct(c) && c.state.Established()
    ensures Sync(c, Lingered(c, msgs), Carries(c, msgs))
  {
    hide Sync;
    ExchangeInSync(c, msgs);
    LingerIdles(c, Exchanged(c, msgs).st);
    SyncIdle(c, Exchanged(c, msgs), Carries(c, msgs), Linger(c, Exchanged(c, msgs).st));
  }

  function Bye1(c: Conn, t: Talk): Conv {
    Emit(c, t.st, true, FlagFA, t.seqs.orig, t.seqs.resp, [], Fin, c.Half())
  }

  function Bye2(c: Conn, t: Talk): Conv {
    Emit(c, Bye1(c, t), false, FlagFA, t.seqs.resp, t.seqs.orig + 1, [], Fin, c.Half())
  }

  function Bye3(c: Conn, t: Talk): Conv {
    Emit(c, Bye2(c, t), true, FlagA, t.seqs.orig + 1, t.seqs.resp + 1, [], PureAck, 0.0)
  }

  /** `d` resets the connection. */
  function Abort(c: Conn, t: Talk, d: bool): Conv {
    Emit(c, t.st, d, FlagR, t.seqs.Get(d), t.seqs.Get(!d), [], Rst, 0.0)
  }

  lemma ConversationShape(c: Conn, msgs: seq<Message>)
    ensures c.state.SF? ==> Conversation(c, msgs) == Bye3(c, Lingered(c, msgs))
    ensures c.state.RSTO? ==> Conversation(c, msgs) == Abort(c, Lingered(c, msgs), true)
    ensures c.state.RSTR? ==> Conversation(c, msgs) == Abort(c, Lingered(c, msgs), false)
  {
    hide Emit;
    hide Linger;
    hide SendAll;
    hide Opening;
    hide FirstSeqs;
  }

  // ---------------------------------------------------------------- stream

  /** The concatenation of one direction's payloads. */
  function Payloads(msgs: seq<Message>, d: bool): bytes {
    if msgs == [] then []
    else (if msgs[0].fromOrig == d then msgs[0].payload else []) + Payloads(msgs[1..], d)
  }

  lemma {:induction false} CarriedIsPayload(c: Conn, msgs: seq<Message>, d: bool)
    ensures c.SegSize() > 0 ==> AllCarried(c, msgs, d) == Payloads(msgs, d)
    ensures c.SegSize() < 0 ==> AllCarried(c, msgs, d) == []
  {
    if msgs != [] {
      CarriedIsPayload(c, msgs[1..], d);
      SegmentLossless(msgs[0].payload, c.SegSize(), c.minSegments);
    }
  }

  lemma NoDataReceived(src: Addr, pkts: seq<Packet>, p: Packet)
    requires !p.flags.Syn() && p.payload == []
    ensures Received(src, pkts + [p]) == Received(src, pkts)
  {
    ReceivedSnoc(src, pkts, p);
  }

  lemma LingeredReceiver(c: Conn, msgs: seq<Message>, d: bool)
    requires Distinct(c) && c.state.Established()
    ensures Received(c.End(d), Lingered(c, msgs).st.pkts)
         == Rx(Some(c.Isn(d) + 1 + |AllCarried(c, msgs, d)|), AllCarried(c, msgs, d), false, false)
  {
    hide Lingered;
    hide ObserverAgrees;
    hide CountsAgree;
    hide AuditorAgrees;
    hide Clocked;
    hide Received;
    LingeredInSync(c, msgs);
  }

  lemma {:induction false} ReceivedAll(c: Conn, msgs: seq<Message>, d: bool)
    requires Distinct(c) && c.state.Established()
    ensures Received(c.End(d), Conversation(c, msgs).pkts)
         == Rx(Some(c.Isn(d) + 1 + |AllCarried(c, msgs, d)|), AllCarried(c, msgs, d), false, false)
  {
    hide Lingered;
    hide Conversation;
    hide Received;
    hide Record;
    hide TsVal;
    hide Conn.Isn;
    hide AllCarried;
    ConversationShape(c, msgs);
    LingeredReceiver(c, msgs, d);
    var t := Lingered(c, msgs);
    var src := c.End(d);
    if c.state.SF? {
      NoDataReceived(src, t.st.pkts, Frame(c, t.st, true, FlagFA, t.seqs.orig, t.seqs.resp, []));
      NoDataReceived(src, Bye1(c, t).pkts, Frame(c, Bye1(c, t), false, FlagFA, t.seqs.resp, t.seqs.orig + 1, []));
      NoDataReceived(src, Bye2(c, t).pkts, Frame(c, Bye2(c, t), true, FlagA, t.seqs.orig + 1, t.seqs.resp + 1, []));
    } else {
      var e := c.state.RSTO?;
      NoDataReceived(src, t.st.pkts, Frame(c, t.st, e, FlagR, t.seqs.Get(e), t.seqs.Get(!e), []));
    }
  }

  /**
   Stream refinement. In an established conversation a receiver of either direction sees no gap and no
   conflicting repeat, and recovers exactly that direction's payloads whenever the configured segment
   size is not negative; a negative one silently drops every byte.
   */
  lemma StreamRecovered(c: Conn, msgs: seq<Message>, d: bool)
    requires Distinct(c) && c.state.Established()
    ensures var rx := Received(c.End(d), Conversation(c, msgs).pkts);
            && !rx.gap && !rx.conflict
            && (rx.data == Payloads(msgs, d) <==>
                  c.segBytes.None? || c.segBytes.value >= 0 || Payloads(msgs, d) == [])
  {
    ReceivedAll(c, msgs, d);
    CarriedIsPayload(c, msgs, d);
  }

  // ---------------------------------------------------------------- observer

  /** The observer's record, in the builder's own terms, just before the teardown. */
  lemma {:induction false} LingeredObserver(c: Conn, msgs: seq<Message>)
    requires Distinct(c) && c.state.Established()
    ensures ObserverAgrees(c, Lingered(c, msgs))
    ensures CountsAgree(c, Lingered(c, msgs).st.pkts)
    ensures Lingered(c, msgs).st.bytes == Pair(|AllCarried(c, msgs, true)|, |AllCarried(c, msgs, false)|)
  {
    hide Lingered;
    hide ObserverAgrees;
    hide CountsAgree;
    hide AuditorAgrees;
    hide Clocked;
    hide ReceiverAgrees;
    LingeredInSync(c, msgs);
  }

  /** What the observer must say of a finished conversation. */
  ghost predicate Logged(c: Conn, st: Conv, data: Pair<bytes>) {
    var z := Observed(st.pkts);
    && Verdict(z) == c.state
    && z.history == st.chars
    && z.bytes == st.bytes == Pair(|data.orig|, |data.resp|)
    && CountsAgree(c, st.pkts)
    && (0 < z.count.resp <==> !c.state.S0?)
  }

  lemma {:induction false} ReplyCounted(pkts: seq<Packet>)
    ensures Observed(pkts).synAckR ==> 0 < Observed(pkts).count.resp
  {
    if pkts != [] {
      ReplyCounted(pkts[..|pkts| - 1]);
    }
  }

  lemma AbortLogged(c: Conn, t: Talk, d: bool, data: Pair<bytes>)
    requires Distinct(c) && ObserverAgrees(c, t) && CountsAgree(c, t.st.pkts)
    requires t.st.bytes == Pair(|data.orig|, |data.resp|)
    requires c.state == (if d then RSTO else RSTR)
    ensures Logged(c, Abort(c, t, d), data)
  {
    var p := Frame(c, t.st, d, FlagR, t.seqs.Get(d), t.seqs.Get(!d), []);
    ObservedSnoc(t.st.pkts, p);
    ReplyCounted(t.st.pkts);
    assert Classify(p, t.seqs.Get(d)) == Rst;
    EmitCounts(c, t.st, d, FlagR, t.seqs.Get(d), t.seqs.Get(!d), [], Rst, 0.0);
  }

  lemma FinStep(z: Zeek, origin: Addr, p: Packet, d: bool)
    requires z.origin == Some(origin) && (p.src == origin) == d && p.flags.FlagFA?
    ensures var z' := ZeekStep(z, p);
            z' == z.(fin := z.fin.Set(d, true), count := z.count.Set(d, z.count.Get(d) + 1),
                     history := Record(z.history, Glyph(Fin, d)), next := z'.next, armed := z'.armed)
  {
    assert Classify(p, z.next.Get(d)) == Fin;
    hide Record;
    hide Glyph;
  }

  lemma FinsObserved(c: Conn, t: Talk)
    requires Distinct(c) && ObserverAgrees(c, t) && CountsAgree(c, t.st.pkts)
    ensures var z, z2 := Observed(t.st.pkts), Observed(Bye2(c, t).pkts);
            && z2.origin == Some(c.orig.addr) && z2.synO && z2.synAckR
            && z2.fin == Pair(true, true) && z2.rst == NONE_YET
            && z2.history == Bye2(c, t).chars && z2.bytes == z.bytes
            && z2.count == Pair(z.count.orig + 1, z.count.resp + 1)
            && CountsAgree(c, Bye2(c, t).pkts)
  {
    hide CountsAgree;
    hide ZeekStep;
    hide Observed;
    hide Record;
    hide Glyph;
    hide TsVal;
    hide Unspent;
    var p1 := Frame(c, t.st, true, FlagFA, t.seqs.orig, t.seqs.resp, []);
    var p2 := Frame(c, Bye1(c, t), false, FlagFA, t.seqs.resp, t.seqs.orig + 1, []);
    ObservedSnoc(t.st.pkts, p1);
    FinStep(Observed(t.st.pkts), c.orig.addr, p1, true);
    EmitCounts(c, t.st, true, FlagFA, t.seqs.orig, t.seqs.resp, [], Fin, c.Half());
    ObservedSnoc(Bye1(c, t).pkts, p2);
    FinStep(Observed(Bye1(c, t).pkts), c.orig.addr, p2, false);
    EmitCounts(c, Bye1(c, t), false, FlagFA, t.seqs.resp, t.seqs.orig + 1, [], Fin, c.Half());
  }

  lemma CloseLogged(c: Conn, t: Talk, data: Pair<bytes>)
    requires Distinct(c) && ObserverAgrees(c, t) && CountsAgree(c, t.st.pkts)
    requires t.st.bytes == Pair(|data.orig|, |data.resp|)
    requires c.state.SF?
    ensures Logged(c, Bye3(c, t), data)
  {
    FinsObserved(c, t);
    var p := Frame(c, Bye2(c, t), true, FlagA, t.seqs.orig + 1, t.seqs.resp + 1, []);
    hide CountsAgree;
    hide ObserverAgrees;
    ObservedSnoc(Bye2(c, t).pkts, p);
    EmitCounts(c, Bye2(c, t), true, FlagA, t.seqs.orig + 1, t.seqs.resp + 1, [], PureAck, 0.0);
    forall next: int ensures Classify(p, next) == PureAck { }
  }

  lemma UnansweredLogged(c: Conn)
    requires Distinct(c) && c.state.S0?
    ensures Logged(c, Opening(c), Pair([], []))
  {
    SynObserved(c, 0.0);
    SynClocked(c, 0.0);
    hide Emit;
  }

  function Refused(c: Conn): Conv {
    Emit(c, Hello1(c), false, FlagRA, 0, c.Isn(true) + 1, [], Rst, 0.0)
  }

  lemma RefusalLogged(c: Conn)
    requires Distinct(c) && c.state.REJ?
    ensures Logged(c, Refused(c), Pair([], []))
  {
    hide CountsAgree;
    hide Observed;
    hide Clocked;
    hide Emit;
    hide Start;
    hide Conn.Isn;
    RefusalObserved(c);
    SynObserved(c, c.Half());
    SynClocked(c, c.Half());
    EmitCounts(c, Hello1(c), false, FlagRA, 0, c.Isn(true) + 1, [], Rst, 0.0);
  }

  lemma RefusalObserved(c: Conn)
    requires Distinct(c)
    ensures Refused(c).chars == "Sr" && Refused(c).bytes == Pair(0, 0)
    ensures Observed(Refused(c).pkts)
         == Zeek(Some(c.orig.addr), true, false, NONE_YET, Pair(false, true), Pair(c.Isn(true) + 1, 0),
                 Pair(0, 0), Pair(1, 1), Pair(true, true), "Sr")
  {
    hide Observed;
    hide TsVal;
    SynObserved(c, c.Half());
    var p := Frame(c, Hello1(c), false, FlagRA, 0, c.Isn(true) + 1, []);
    ObservedSnoc(Hello1(c).pkts, p);
    assert Classify(p, 0) == Rst;
  }

  /** The bytes the observer counts: nothing unless the handshake completed. */
  function WireBytes(c: Conn, msgs: seq<Message>): Pair<bytes> {
    if c.state.Established() then Carries(c, msgs) else Pair([], [])
  }

  lemma RefusalShape(c: Conn)
    requires c.state.REJ?
    ensures Opening(c).pkts == Refused(c).pkts && Opening(c).chars == Refused(c).chars
    ensures Opening(c).bytes == Refused(c).bytes
    ensures forall data :: Logged(c, Refused(c), data) ==> Logged(c, Opening(c), data)
  {
  }

  lemma {:induction false} ConversationLogged(c: Conn, msgs: seq<Message>)
    requires Distinct(c) && c.state.Supported()
    ensures Logged(c, Conversation(c, msgs), WireBytes(c, msgs))
  {
    hide Logged;
    hide ObserverAgrees;
    hide CountsAgree;
    if c.state.Established() {
      LingeredObserver(c, msgs);
      ConversationShape(c, msgs);
      hide Lingered;
      var t := Lingered(c, msgs);
      if c.state.SF? {
        CloseLogged(c, t, Carries(c, msgs));
      } else {
        AbortLogged(c, t, c.state.RSTO?, Carries(c, msgs));
      }
    } else if c.state.S0? {
      UnansweredLogged(c);
    } else {
      RefusalLogged(c);
      RefusalShape(c);
    }
  }

  /**
   Observer agreement. For all five connection states and every texture, the observer derives the
   state, history, byte counts and duration the summary reports; the packet counts agree as well
   exactly when the endpoints differ in IP, which is all the summary looks at, or nothing was answered.
   */
  lemma ConnLogAgrees(c: Conn, msgs: seq<Message>)
    requires Distinct(c) && c.state.Supported()
    ensures var zeek := ConnLog(Conversation(c, msgs).pkts);
            var mine := Summarize(c, Conversation(c, msgs));
            && zeek.connState == mine.connState && zeek.history == mine.history
            && zeek.duration == mine.duration
            && zeek.origBytes == mine.origBytes == |WireBytes(c, msgs).orig|
            && zeek.respBytes == mine.respBytes == |WireBytes(c, msgs).resp|
            && (zeek == mine <==> c.orig.addr.ip != c.resp.addr.ip || c.state.S0?)
  {
    ConversationLogged(c, msgs);
    hide Conversation;
    hide Observed;
    hide WireBytes;
  }

  // ---------------------------------------------------------------- auditor

  lemma LingeredAuditor(c: Conn, msgs: seq<Message>)
    requires Distinct(c) && c.state.Established()
    ensures AuditorAgrees(c, Lingered(c, msgs))
    ensures Lingered(c, msgs).seqs == Pair(c.Isn(true) + 1 + |AllCarried(c, msgs, true)|,
                                           c.Isn(false) + 1 + |AllCarried(c, msgs, false)|)
  {
    hide Lingered;
    hide ObserverAgrees;
    hide CountsAgree;
    hide AuditorAgrees;
    hide Clocked;
    hide ReceiverAgrees;
    LingeredInSync(c, msgs);
  }

  lemma CloseAudited(c: Conn, t: Talk)
    requires Distinct(c) && AuditorAgrees(c, t)
    ensures var a := Audited(c.orig.addr, Bye3(c, t).pkts);
            && a.ok && a.end == Pair(t.seqs.orig + 1, t.seqs.resp + 1)
            && a.acked == Pair(a.end.resp, a.end.orig)
  {
    var o := c.orig.addr;
    AuditedSnoc(o, t.st.pkts, Frame(c, t.st, true, FlagFA, t.seqs.orig, t.seqs.resp, []));
    AuditedSnoc(o, Bye1(c, t).pkts, Frame(c, Bye1(c, t), false, FlagFA, t.seqs.resp, t.seqs.orig + 1, []));
    AuditedSnoc(o, Bye2(c, t).pkts, Frame(c, Bye2(c, t), true, FlagA, t.seqs.orig + 1, t.seqs.resp + 1, []));
  }

  lemma AbortAudited(c: Conn, t: Talk, d: bool)
    requires Distinct(c) && AuditorAgrees(c, t)
    ensures var a := Audited(c.orig.addr, Abort(c, t, d).pkts);
            a.ok && a.end == t.seqs
  {
    AuditedSnoc(c.orig.addr, t.st.pkts, Frame(c, t.st, d, FlagR, t.seqs.Get(d), t.seqs.Get(!d), []));
  }

  lemma UnansweredAudited(c: Conn)
    requires Distinct(c) && c.state in {S0, REJ}
    ensures var a := Audited(c.orig.addr, Opening(c).pkts);
            a.ok && a.end == Pair(c.Isn(true) + 1, 0)
  {
    AuditedSnoc(c.orig.addr, [], Frame(c, Start(c), true, FlagS, c.Isn(true), 0, []));
    if c.state.REJ? {
      AuditedSnoc(c.orig.addr, Hello1(c).pkts, Frame(c, Hello1(c), false, FlagRA, 0, c.Isn(true) + 1, []));
      assert Opening(c).pkts == Refused(c).pkts;
    }
  }

  /** One past the sequence space each side uses: ISN, SYN, data, and a FIN where there is one. */
  function SpaceUsed(c: Conn, msgs: seq<Message>): Pair<int> {
    if c.state.Established() then
      var fin := if c.state.SF? then 1 else 0;
      Pair(c.Isn(true) + 1 + |AllCarried(c, msgs, true)| + fin, c.Isn(false) + 1 + |AllCarried(c, msgs, false)| + fin)
    else Pair(c.Isn(true) + 1, 0)
  }

  /**
   Sequence discipline. Every segment of every conversation passes the auditor, the sequence space used
   is ISN + 1 + the bytes carried (+ 1 for a FIN), and at the end of SF both sides have acknowledged
   all of it, both FINs included.
   */
  lemma SequencesAudited(c: Conn, msgs: seq<Message>)
    requires Distinct(c) && c.state.Supported()
    ensures var a := Audited(c.orig.addr, Conversation(c, msgs).pkts);
            && a.ok
            && a.end == SpaceUsed(c, msgs)
            && (c.state.SF? ==> a.acked == Pair(a.end.resp, a.end.orig))
  {
    hide AuditorAgrees;
    hide Conversation;
    hide Audited;
    hide AllCarried;
    hide Emit;
    hide Lingered;
    hide Conn.Isn;
    if c.state.Established() {
      LingeredAuditor(c, msgs);
      ConversationShape(c, msgs);
      var t := Lingered(c, msgs);
      if c.state.SF? {
        CloseAudited(c, t);
      } else {
        AbortAudited(c, t, c.state.RSTO?);
      }
    } else {
      UnansweredAudited(c);
      UnansweredShape(c, msgs);
    }
  }

  lemma UnansweredShape(c: Conn, msgs: seq<Message>)
    requires !c.state.Established()
    ensures Conversation(c, msgs) == Opening(c)
  {
  }

  /** Both header fields can be written as unsigned 32-bit integers. */
  predicate Fits(p: Packet) {
    0 <= p.seqNo < TWO_32 && 0 <= p.ackNo < TWO_32
  }

  /** Audited traffic never names sequence numbers outside the space used. */
  lemma {:induction false} AuditBounds(orig: Addr, pkts: seq<Packet>)
    ensures var a := Audited(orig, pkts);
            && 0 <= a.end.orig && 0 <= a.end.resp
            && (a.ok && a.open.orig ==> 0 <= a.base.orig) && (a.ok && a.open.resp ==> 0 <= a.base.resp)
            && (a.ok ==> forall i :: 0 <= i < |pkts| ==>
                  var d := pkts[i].src == orig;
                  && 0 <= pkts[i].seqNo <= a.end.Get(d)
                  && 0 <= pkts[i].ackNo <= a.end.Get(!d))
  {
    if pkts != [] {
      AuditBounds(orig, pkts[..|pkts| - 1]);
    }
  }

  /** The last packet names the end of both sides' sequence space. */
  lemma LastNamesEnd(c: Conn, msgs: seq<Message>)
    requires c.state.Supported() && !c.state.S0?
    requires c.state.Established() ==> Lingered(c, msgs).seqs == Pair(
      c.Isn(true) + 1 + |AllCarried(c, msgs, true)|, c.Isn(false) + 1 + |AllCarried(c, msgs, false)|)
    ensures var pkts := Conversation(c, msgs).pkts;
            && pkts != []
            && var p := pkts[|pkts| - 1];
            && var end := SpaceUsed(c, msgs);
            (p.seqNo == end.orig && p.ackNo == end.resp) || (p.seqNo == end.resp && p.ackNo == end.orig)
  {
    ConversationShape(c, msgs);
    hide Lingered;
    hide AllCarried;
    if c.state.REJ? {
      assert Conversation(c, msgs).pkts == Refused(c).pkts;
    }
  }

  /**
   The source never reduces sequence numbers mod 2^32. Every field of a conversation fits its 32-bit
   header slot exactly when neither side's sequence space runs past 2^32 - 1; a lone SYN always fits.
   */
  lemma FieldsFit(c: Conn, msgs: seq<Message>)
    requires Distinct(c) && c.state.Supported()
    ensures (forall p :: p in Conversation(c, msgs).pkts ==> Fits(p)) <==>
            c.state.S0? || (SpaceUsed(c, msgs).orig < TWO_32 && SpaceUsed(c, msgs).resp < TWO_32)
  {
    var pkts := Conversation(c, msgs).pkts;
    if c.state.S0? {
      assert pkts == [Frame(c, Start(c), true, FlagS, c.Isn(true), 0, [])];
    } else {
      hide Conversation;
      hide Audited;
      hide SpaceUsed;
      hide AllCarried;
      hide Lingered;
      hide AuditorAgrees;
      SequencesAudited(c, msgs);
      AuditBounds(c.orig.addr, pkts);
      if c.state.Established() {
        LingeredAuditor(c, msgs);
      }
      LastNamesEnd(c, msgs);
      assert pkts[|pkts| - 1] in pkts;
    }
  }

  // ---------------------------------------------------------------- clock

  lemma CloseClocked(c: Conn, t: Talk)
    requires Distinct(c) && Clocked(c, t.st)
    ensures Clocked(c, Bye3(c, t)) && Clocked(c, Abort(c, t, true)) && Clocked(c, Abort(c, t, false))
  {
    hide Clocked;
    EmitClocked(c, t.st, true, FlagFA, t.seqs.orig, t.seqs.resp, [], Fin, c.Half());
    EmitClocked(c, Bye1(c, t), false, FlagFA, t.seqs.resp, t.seqs.orig + 1, [], Fin, c.Half());
    EmitClocked(c, Bye2(c, t), true, FlagA, t.seqs.orig + 1, t.seqs.resp + 1, [], PureAck, 0.0);
    EmitClocked(c, t.st, true, FlagR, t.seqs.orig, t.seqs.resp, [], Rst, 0.0);
    EmitClocked(c, t.st, false, FlagR, t.seqs.resp, t.seqs.orig, [], Rst, 0.0);
  }

  lemma WaitClocked(c: Conn, st: Conv, k: nat)
    requires Clocked(c, st)
    ensures Clocked(c, Wait(st, Gap(c.rtt, k)))
  {
  }

  lemma UnansweredClocked(c: Conn)
    requires Distinct(c) && c.state in {S0, REJ}
    ensures Clocked(c, Opening(c))
  {
    hide Clocked;
    hide CountsAgree;
    var k := Start(c).k;
    if c.state.S0? {
      SynClocked(c, 0.0);
      WaitClocked(c, Emit(c, Start(c), true, FlagS, c.Isn(true), 0, [], Syn, 0.0), k);
    } else {
      SynClocked(c, c.Half());
      EmitClocked(c, Hello1(c), false, FlagRA, 0, c.Isn(true) + 1, [], Rst, 0.0);
      WaitClocked(c, Refused(c), k);
    }
  }

  lemma {:induction false} ConversationClocked(c: Conn, msgs: seq<Message>)
    requires Distinct(c) && c.state.Supported()
    ensures Clocked(c, Conversation(c, msgs))
  {
    hide Clocked;
    if c.state.Established() {
      LingeredClocked(c, msgs);
      ConversationShape(c, msgs);
      hide Lingered;
      hide Conversation;
      CloseClocked(c, Lingered(c, msgs));
    } else {
      UnansweredClocked(c);
    }
  }

  lemma LingeredClocked(c: Conn, msgs: seq<Message>)
    requires Distinct(c) && c.state.Established()
    ensures Clocked(c, Lingered(c, msgs).st) && Opened(c, Lingered(c, msgs).st.pkts)
  {
    LingeredInSync(c, msgs);
    hide Lingered;
    hide Clocked;
    hide ObserverAgrees;
    hide CountsAgree;
    hide AuditorAgrees;
    hide ReceiverAgrees;
  }

  /** The second packet of every answered conversation follows the first by half the network's rtt. */
  lemma AnswerGap(c: Conn, msgs: seq<Message>)
    requires Distinct(c) && c.state.Supported() && !c.state.S0?
    ensures var pkts := Conversation(c, msgs).pkts;
            1 < |pkts| && pkts[1].time == pkts[0].time + c.Half()
  {
    if c.state.REJ? {
      assert Conversation(c, msgs).pkts == Refused(c).pkts;
    } else {
      LingeredClocked(c, msgs);
      ConversationShape(c, msgs);
      hide Lingered;
      hide Clocked;
      hide Conversation;
    }
  }

  /** So with a negative rtt it precedes the first. */
  lemma AnswerPrecedes(c: Conn, msgs: seq<Message>)
    requires Distinct(c) && c.state.Supported() && !c.state.S0? && c.rtt < 0.0
    ensures var pkts := Conversation(c, msgs).pkts;
            1 < |pkts| && pkts[1].time < pkts[0].time
  {
    AnswerGap(c, msgs);
    hide Conversation;
  }

  /**
   Clock discipline. Packet times never decrease exactly when the rtt is not negative (or only one
   packet was sent); with timestamps negotiated every TSecr is the peer's latest TSval (0 if none), and
   without them no packet carries the option.
   */
  lemma {:induction false} ClockDiscipline(c: Conn, msgs: seq<Message>)
    requires Distinct(c) && c.state.Supported()
    ensures var pkts := Conversation(c, msgs).pkts;
            && (InTimeOrder(pkts) <==> c.rtt >= 0.0 || c.state.S0?)
            && (if c.TsActive() then Echoed(c.orig.addr, pkts).ok else forall p :: p in pkts ==> p.ts.None?)
  {
    ConversationClocked(c, msgs);
    if c.rtt < 0.0 {
      if c.state.S0? {
        assert |Conversation(c, msgs).pkts| == 1;
      } else {
        AnswerPrecedes(c, msgs);
      }
    }
    hide Conversation;
    hide Echoed;
  }
}
