/** `build_tcp_flow` with its mutable state: the closures' variables are the fields of `FlowBuilder`. */
module TcpBuilder {
  import opened Numbers
  import opened Seqs
  import opened Bytes
  import opened Segmentation
  import opened TcpModel
  import TcpMonitors
  import TcpTheorems

  class HistoryRecorder {
    var seen: set<char>
    var chars: string

    ghost predicate Valid()
      reads this
    {
      seen == set ch | ch in chars
    }

    constructor ()
      ensures Valid() && chars == ""
    {
      seen, chars := {}, "";
    }

    method Note(letter: Letter, fromOrig: bool)
      requires Valid()
      modifies this
      ensures Valid()
      ensures chars == Record(old(chars), Glyph(letter, fromOrig))
    {
      var ch := Glyph(letter, fromOrig);
      if ch !in seen {
        seen := seen + {ch};
        chars := chars + [ch];
      }
    }
  }

  class FlowBuilder {
    const c: Conn
    const hist: HistoryRecorder
    var k: nat
    var clock: real
    var pkts: seq<Packet>
    var dataBytes: Pair<nat>
    var retransmitted: Pair<bool>
    var tsLast: Pair<nat>

    ghost predicate Valid()
      reads this, hist
    {
      hist.Valid()
    }

    ghost function State(): Conv
      reads this, hist
    {
      Conv(k, clock, pkts, hist.chars, dataBytes, retransmitted, tsLast)
    }

    constructor (c: Conn)
      ensures Valid() && fresh(hist)
      ensures this.c == c && State() == Start(c)
    {
      this.c := c;
      hist := new HistoryRecorder();
      k, clock, pkts := 0, c.start, [];
      dataBytes, retransmitted, tsLast := Pair(0, 0), Pair(false, false), Pair(0, 0);
    }

    method Random() returns (u: real)
      modifies this`k
      ensures u == c.rng.unit(old(k)) && k == old(k) + 1
    {
      u := c.rng.unit(k);
      k := k + 1;
    }

    method Jitter(base: real) returns (delay: real)
      modifies this`k
      ensures Gap(delay, k) == Jit(c, old(k), base)
    {
      if c.texture.jitterFrac == 0.0 {
        return base;
      }
      var u := Random();
      delay := MaxReal(0.0, base * (1.0 + c.texture.jitterFrac * (u * 2.0 - 1.0)));
    }

    method DataGap(mean: real) returns (delay: real)
      modifies this`k
      ensures Gap(delay, k) == HGap(c, old(k), mean)
    {
      if !(c.texture.heavyTiming && mean > 0.0) {
        delay := Jitter(mean);
      } else {
        delay := MinReal(90.0, c.rng.tail(k));
        k := k + 1;
      }
    }

    method UniformGap(lo: real, hi: real) returns (delay: real)
      modifies this`k
      ensures Gap(delay, k) == JitUniform(c, old(k), lo, hi)
    {
      var u := Random();
      delay := Jitter(lo + (hi - lo) * u);
    }

    method MakeFrame(fromOrig: bool, flags: Flags, seqNo: int, ackNo: int, payload: bytes) returns (p: Packet)
      modifies this`tsLast
      ensures p == Frame(c, old(State()), fromOrig, flags, seqNo, ackNo, payload)
      ensures tsLast == if c.TsActive() then old(tsLast).Set(fromOrig, TsVal(c, fromOrig, clock)) else old(tsLast)
    {
      var src, dst := c.End(fromOrig), c.End(!fromOrig);
      var ts := None;
      if c.TsActive() {
        var tsVal := TsVal(c, fromOrig, clock);
        ts := Some(Timestamp(tsVal, tsLast.Get(!fromOrig)));
        tsLast := tsLast.Set(fromOrig, tsVal);
      }
      p := Packet(clock, Tcp, src, dst, flags, seqNo, ackNo, payload, ts);
    }

    method Append(p: Packet, letter: Letter, fromOrig: bool, advance: real)
      requires Valid()
      modifies this`pkts, this`clock, hist
      ensures Valid()
      ensures pkts == old(pkts) + [p] && clock == old(clock) + advance
      ensures hist.chars == Record(old(hist.chars), Glyph(letter, fromOrig))
    {
      pkts := pkts + [p];
      hist.Note(letter, fromOrig);
      clock := clock + advance;
    }

    method SendFrame(
      fromOrig: bool, flags: Flags, seqNo: int, ackNo: int, payload: bytes, letter: Letter, advance: real)
      requires Valid()
      modifies this`pkts, this`clock, this`tsLast, hist
      ensures Valid()
      ensures State() == Emit(c, old(State()), fromOrig, flags, seqNo, ackNo, payload, letter, advance)
    {
      var p := MakeFrame(fromOrig, flags, seqNo, ackNo, payload);
      Append(p, letter, fromOrig, advance);
    }

    method Open()
      requires Valid() && State() == Start(c) && c.state.Supported()
      modifies this, hist
      ensures Valid() && State() == Opening(c)
    {
      var cIsn: int, sIsn: int := c.Isn(true), c.Isn(false);
      if c.state.S0? {
        SendFrame(true, FlagS, cIsn, 0, [], Syn, 0.0);
        clock := clock + c.rtt;
      } else if c.state.REJ? {
        SendFrame(true, FlagS, cIsn, 0, [], Syn, c.Half());
        SendFrame(false, FlagRA, 0, cIsn + 1, [], Rst, 0.0);
        clock := clock + c.rtt;
      } else {
        SendFrame(true, FlagS, cIsn, 0, [], Syn, c.Half());
        SendFrame(false, FlagSA, sIsn, cIsn + 1, [], SynAck, c.Half());
        SendFrame(true, FlagA, cIsn + 1, sIsn + 1, [], PureAck, 0.0);
      }
    }

    method SendData(snd: bool, seqNo: int, peerAck: int, chunk: bytes)
      requires Valid()
      modifies this, hist
      ensures Valid() && State() == SendOriginal(c, old(State()), snd, seqNo, peerAck, chunk)
    {
      SendFrame(snd, FlagPA, seqNo, peerAck, chunk, Data, 0.0);
      dataBytes := dataBytes.Set(snd, dataBytes.Get(snd) + |chunk|);
    }

    method ResendMaybe(snd: bool, seqNo: int, peerAck: int, chunk: bytes)
      requires Valid()
      modifies this, hist
      ensures Valid() && State() == MaybeRetransmit(c, old(State()), snd, seqNo, peerAck, chunk)
    {
      hide Emit;
      hide Jit;
      if c.texture.retransmitProb != 0.0 && !retransmitted.Get(snd) {
        var u := Random();
        if u < c.texture.retransmitProb {
          retransmitted := retransmitted.Set(snd, true);
          var v := Random();
          var rto := Jitter(Rto(c, v));
          clock := clock + rto;
          SendFrame(snd, FlagPA, seqNo, peerAck, chunk, Retransmit, 0.0);
        }
      }
    }

    /** One original segment, perhaps its one retransmission, and the spacing to the next. */
    method SendSegment(snd: bool, seqNo: int, peerAck: int, chunk: bytes, more: bool)
      requires Valid()
      modifies this, hist
      ensures Valid() && State() == SendChunk(c, old(State()), snd, seqNo, peerAck, chunk, more)
    {
      hide SendOriginal;
      hide MaybeRetransmit;
      hide HGap;
      SendData(snd, seqNo, peerAck, chunk);
      ResendMaybe(snd, seqNo, peerAck, chunk);
      if c.texture.heavyTiming && more {
        var g := DataGap(c.rtt);
        clock := clock + g;
      }
    }

    /** All the segments of a message; returns the sender's next sequence number. */
    method SendSegments(snd: bool, first: int, peerAck: int, segs: seq<bytes>) returns (seqNo: int)
      requires Valid()
      modifies this, hist
      ensures Valid() && State() == SendChunks(c, old(State()), snd, first, peerAck, segs)
      ensures seqNo == first + Total(segs)
    {
      hide SendChunk;
      seqNo := first;
      var i := 0;
      while i < |segs|
        invariant 0 <= i <= |segs|
        invariant Valid()
        invariant SendChunks(c, State(), snd, seqNo, peerAck, segs[i..])
               == SendChunks(c, old(State()), snd, first, peerAck, segs)
        invariant seqNo + Total(segs[i..]) == first + Total(segs)
      {
        assert segs[i..][1..] == segs[i + 1..];
        SendSegment(snd, seqNo, peerAck, segs[i], i < |segs| - 1);
        seqNo := seqNo + |segs[i]|;
        i := i + 1;
      }
    }

    /** The peer's acknowledgment, perhaps duplicated. */
    method Acknowledge(rcv: bool, ackSeq: int, ackNum: int)
      requires Valid()
      modifies this, hist
      ensures Valid()
      ensures State() == MaybeDupAck(c, Emit(c, old(State()), rcv, FlagA, ackSeq, ackNum, [], PureAck, 0.0),
                                     rcv, ackSeq, ackNum)
    {
      hide Emit;
      hide Jit;
      SendFrame(rcv, FlagA, ackSeq, ackNum, [], PureAck, 0.0);
      if c.texture.dupAckProb != 0.0 {
        var u := Random();
        if u < c.texture.dupAckProb {
          var g := Jitter(c.Half() * 0.3);
          clock := clock + g;
          SendFrame(rcv, FlagA, ackSeq, ackNum, [], PureAck, 0.0);
        }
      }
    }

    /** One message and its acknowledgment; returns both sides' next sequence numbers. */
    method SendOne(msg: Message, cSeq: int, sSeq: int) returns (cNext: int, sNext: int)
      requires Valid()
      modifies this, hist
      ensures Valid()
      ensures Talk(State(), Pair(cNext, sNext)) == SendMessage(c, Talk(old(State()), Pair(cSeq, sSeq)), msg)
    {
      hide SendChunks;
      hide MaybeDupAck;
      hide Emit;
      hide Jit;
      hide Segment;
      var snd := msg.fromOrig;
      var seqNo := if snd then cSeq else sSeq;
      var peerAck := if snd then sSeq else cSeq;
      var g: real;
      if c.texture.heavyTiming {
        g := DataGap(c.rtt);
      } else {
        g := UniformGap(0.001, 0.01);
      }
      clock := clock + g;
      var segs := SegmentPayload(msg.payload, c.SegSize(), c.minSegments);
      seqNo := SendSegments(snd, seqNo, peerAck, segs);
      cNext, sNext := if snd then seqNo else cSeq, if snd then sSeq else seqNo;
      g := DataGap(c.rtt);
      clock := clock + g;
      Acknowledge(!snd, if snd then sNext else cNext, if snd then cNext else sNext);
    }

    /** The messages in order; returns both sides' next sequence numbers. */
    method Exchange(msgs: seq<Message>) returns (cSeq: int, sSeq: int)
      requires Valid()
      modifies this, hist
      ensures Valid()
      ensures Talk(State(), Pair(cSeq, sSeq)) == SendAll(c, Talk(old(State()), FirstSeqs(c)), msgs)
    {
      hide SendMessage;
      cSeq, sSeq := c.Isn(true) + 1, c.Isn(false) + 1;
      var i := 0;
      while i < |msgs|
        invariant 0 <= i <= |msgs|
        invariant Valid()
        invariant SendAll(c, Talk(State(), Pair(cSeq, sSeq)), msgs[i..])
               == SendAll(c, Talk(old(State()), FirstSeqs(c)), msgs)
      {
        assert msgs[i..][1..] == msgs[i + 1..];
        cSeq, sSeq := SendOne(msgs[i], cSeq, sSeq);
        i := i + 1;
      }
    }

    method Idle()
      requires Valid()
      modifies this`k, this`clock
      ensures Valid() && State() == Linger(c, old(State()))
    {
      if c.texture.lingerScale != 0.0 {
        var u := Random();
        if u < 0.5 {
          clock := clock + MinReal(250.0, c.rng.tail(k));
          k := k + 1;
        }
      }
      var g := UniformGap(0.02, 0.2);
      clock := clock + g;
    }

    method Close(cSeq: int, sSeq: int)
      requires Valid() && c.state.Established()
      modifies this, hist
      ensures Valid() && State() == Closing(c, Talk(old(State()), Pair(cSeq, sSeq)))
    {
      hide Emit;
      hide Linger;
      Idle();
      match c.state
      case SF =>
        SendFrame(true, FlagFA, cSeq, sSeq, [], Fin, c.Half());
        SendFrame(false, FlagFA, sSeq, cSeq + 1, [], Fin, c.Half());
        SendFrame(true, FlagA, cSeq + 1, sSeq + 1, [], PureAck, 0.0);
      case RSTO =>
        SendFrame(true, FlagR, cSeq, sSeq, [], Rst, 0.0);
      case RSTR =>
        SendFrame(false, FlagR, sSeq, cSeq, [], Rst, 0.0);
    }
  }

  datatype TcpResult = TcpResult(packets: seq<Packet>, summary: Summary)

  /** Counts the packets whose source IP is `ip`. */
  method CountFrom(pkts: seq<Packet>, ip: string) returns (n: nat)
    ensures n == CountFromIp(pkts, ip)
  {
    n := 0;
    for i := 0 to |pkts|
      invariant n == CountFromIp(pkts[..i], ip)
    {
      assert pkts[..i + 1][..i] == pkts[..i];
      if pkts[i].src.ip == ip {
        n := n + 1;
      }
    }
    assert pkts[..|pkts|] == pkts;
  }

  /**
   The whole routine. It refuses an unknown state; otherwise the summary it reports is the connection
   record an independent observer writes, and each direction's payloads can be reassembled.
   */
  method BuildTcpFlow(c: Conn, msgs: seq<Message>) returns (r: Result<TcpResult>)
    ensures r.Err? <==> !c.state.Supported()
    ensures r.Ok? ==>
              && r.value.packets == Conversation(c, msgs).pkts
              && r.value.summary == Summarize(c, Conversation(c, msgs))
    ensures r.Ok? && c.orig.addr.ip != c.resp.addr.ip ==> TcpMonitors.ConnLog(r.value.packets) == r.value.summary
    ensures r.Ok? && c.orig.addr != c.resp.addr && c.state.Established() && c.SegSize() > 0 ==>
              forall d :: TcpMonitors.Received(c.End(d), r.value.packets).data == TcpTheorems.Payloads(msgs, d)
  {
    if !c.state.Supported() {
      return Err("unsupported conn_state");
    }
    var b := new FlowBuilder(c);
    b.Open();
    if c.state.Established() {
      var cSeq, sSeq := b.Exchange(msgs);
      b.Close(cSeq, sSeq);
    }
    Guarantees(c, msgs);
    hide Opening;
    hide Closing;
    hide SendAll;
    var origPkts := CountFrom(b.pkts, c.orig.addr.ip);
    var summary := Summary(c.state, b.hist.chars, origPkts, |b.pkts| - origPkts,
                           b.dataBytes.orig, b.dataBytes.resp, Duration(b.pkts));
    r := Ok(TcpResult(b.pkts, summary));
    assert b.State() == Conversation(c, msgs);
    hide Conversation;
  }

  lemma {:induction false} Guarantees(c: Conn, msgs: seq<Message>)
    requires c.state.Supported()
    ensures c.orig.addr.ip != c.resp.addr.ip ==>
              TcpMonitors.ConnLog(Conversation(c, msgs).pkts) == Summarize(c, Conversation(c, msgs))
    ensures c.orig.addr != c.resp.addr && c.state.Established() && c.SegSize() > 0 ==>
              forall d :: TcpMonitors.Received(c.End(d), Conversation(c, msgs).pkts).data
                       == TcpTheorems.Payloads(msgs, d)
  {
    if c.orig.addr != c.resp.addr {
      TcpTheorems.ConnLogAgrees(c, msgs);
      if c.state.Established() {
        TcpTheorems.StreamRecovered(c, msgs, true);
        TcpTheorems.StreamRecovered(c, msgs, false);
      }
    }
  }
}
