/** Every step of the conversation keeps all readers in agreement with the builder's own state. */
module TcpProofs {
  import opened Seqs
  import opened Bytes
  import opened Segmentation
  import opened TcpModel
  import opened TcpMonitors

  /** The two ends can be told apart. */
  predicate Distinct(c: Conn) {
    c.orig.addr != c.resp.addr
  }

  // ---------------------------------------------------------------- the invariant

  ghost predicate ReceiverAgrees(c: Conn, t: Talk, data: Pair<bytes>) {
    && Received(c.orig.addr, t.st.pkts) == Rx(Some(t.seqs.orig), data.orig, false, false)
    && Received(c.resp.addr, t.st.pkts) == Rx(Some(t.seqs.resp), data.resp, false, false)
  }

  /** Before its one retransmission a direction is armed and its letter unused. */
  ghost predicate Unspent(z: Zeek, chars: string, retransmitted: Pair<bool>, d: bool) {
    !retransmitted.Get(d) ==> z.armed.Get(d) && Glyph(Retransmit, d) !in chars
  }

  ghost predicate CountsAgree(c: Conn, pkts: seq<Packet>) {
    var z := Observed(pkts);
    && z.count.orig + z.count.resp == |pkts|
    && CountFromIp(pkts, c.orig.addr.ip) == if c.orig.addr.ip != c.resp.addr.ip then z.count.orig else |pkts|
  }

  /** The observer's record of an established, still open conversation. */
  ghost predicate Follows(
    z: Zeek, origin: Addr, seqs: Pair<int>, bytes: Pair<nat>, chars: string, retransmitted: Pair<bool>)
  {
    && z.origin == Some(origin)
    && z.synO && z.synAckR && z.fin == Pair(false, false) && z.rst == Pair(false, false)
    && z.next == seqs
    && z.bytes == bytes
    && z.history == chars
    && Unspent(z, chars, retransmitted, true) && Unspent(z, chars, retransmitted, false)
  }

  ghost predicate ObserverAgrees(c: Conn, t: Talk) {
    Follows(Observed(t.st.pkts), c.orig.addr, t.seqs, t.st.bytes, t.st.chars, t.st.retransmitted)
  }

  ghost predicate AuditorAgrees(c: Conn, t: Talk) {
    var a := Audited(c.orig.addr, t.st.pkts);
    && a.ok && a.open == Pair(true, true)
    && a.base == FirstSeqs(c) && a.end == t.seqs
    && a.base.orig <= a.end.orig && a.base.resp <= a.end.resp
    && 0 <= a.acked.orig && 0 <= a.acked.resp
    && a.acked.orig <= t.seqs.resp && a.acked.resp <= t.seqs.orig
  }

  ghost predicate Numbered(c: Conn, t: Talk, data: Pair<bytes>) {
    && t.seqs.orig == c.Isn(true) + 1 + |data.orig| && t.st.bytes.orig == |data.orig|
    && t.seqs.resp == c.Isn(false) + 1 + |data.resp| && t.st.bytes.resp == |data.resp|
  }

  ghost predicate Timely(pkts: seq<Packet>, clock: real) {
    InTimeOrder(pkts) && forall i :: 0 <= i < |pkts| ==> pkts[i].time <= clock
  }

  /** Every packet lies between the two ends and carries the timestamp option only if it was negotiated. */
  ghost predicate Located(c: Conn, pkts: seq<Packet>) {
    forall i :: 0 <= i < |pkts| ==>
      Belongs(c.orig.addr, c.resp.addr, pkts[i]) && (pkts[i].ts.Some? ==> c.TsActive())
  }

  /** Holds in every state: nothing later than the clock, and the echo state is the builder's own. */
  ghost predicate Clocked(c: Conn, st: Conv) {
    && (c.rtt >= 0.0 ==> Timely(st.pkts, st.clock))
    && Located(c, st.pkts)
    && (c.TsActive() ==> Echoed(c.orig.addr, st.pkts) == Echo(st.tsLast, true))
  }

  /** The handshake stays at the front. */
  ghost predicate Opened(c: Conn, pkts: seq<Packet>) {
    2 <= |pkts| && pkts[0].time == c.start && pkts[1].time == c.start + c.Half()
  }

  ghost predicate Sync(c: Conn, t: Talk, data: Pair<bytes>) {
    && ReceiverAgrees(c, t, data)
    && ObserverAgrees(c, t)
    && CountsAgree(c, t.st.pkts)
    && AuditorAgrees(c, t)
    && Numbered(c, t, data)
    && Clocked(c, t.st)
    && Opened(c, t.st.pkts)
  }

  // ---------------------------------------------------------------- one emission

  lemma EmitTimely(c: Conn, st: Conv, d: bool, flags: Flags, seqNo: int, ackNo: int, payload: bytes,
                   letter: Letter, advance: real)
    requires Timely(st.pkts, st.clock) && advance >= 0.0
    ensures var st' := Emit(c, st, d, flags, seqNo, ackNo, payload, letter, advance);
            Timely(st'.pkts, st'.clock)
  {
    hide Record;
    hide TsVal;
  }

  lemma EmitEchoed(c: Conn, st: Conv, d: bool, flags: Flags, seqNo: int, ackNo: int, payload: bytes,
                   letter: Letter, advance: real)
    requires Distinct(c) && c.TsActive() && Echoed(c.orig.addr, st.pkts) == Echo(st.tsLast, true)
    ensures var st' := Emit(c, st, d, flags, seqNo, ackNo, payload, letter, advance);
            Echoed(c.orig.addr, st'.pkts) == Echo(st'.tsLast, true)
  {
    EchoedSnoc(c.orig.addr, st.pkts, Frame(c, st, d, flags, seqNo, ackNo, payload));
    hide Record;
    hide TsVal;
    hide Echoed;
  }

  lemma EmitClocked(c: Conn, st: Conv, d: bool, flags: Flags, seqNo: int, ackNo: int, payload: bytes,
                    letter: Letter, advance: real)
    requires Distinct(c) && Clocked(c, st)
    requires c.rtt >= 0.0 ==> advance >= 0.0
    ensures Clocked(c, Emit(c, st, d, flags, seqNo, ackNo, payload, letter, advance))
  {
    if c.rtt >= 0.0 {
      EmitTimely(c, st, d, flags, seqNo, ackNo, payload, letter, advance);
    }
    if c.TsActive() {
      EmitEchoed(c, st, d, flags, seqNo, ackNo, payload, letter, advance);
    }
    EmitLocated(c, st, d, flags, seqNo, ackNo, payload, letter, advance);
    hide Timely;
    hide Echoed;
    hide Located;
    hide Emit;
  }

  lemma EmitLocated(c: Conn, st: Conv, d: bool, flags: Flags, seqNo: int, ackNo: int, payload: bytes,
                    letter: Letter, advance: real)
    requires Located(c, st.pkts)
    ensures Located(c, Emit(c, st, d, flags, seqNo, ackNo, payload, letter, advance).pkts)
  {
    hide Record;
    hide TsVal;
  }

  /** Any further packet of the conversation keeps the counts. */
  lemma EmitCounts(c: Conn, st: Conv, d: bool, flags: Flags, seqNo: int, ackNo: int, payload: bytes,
                   letter: Letter, advance: real)
    requires Distinct(c) && CountsAgree(c, st.pkts)
    requires if st.pkts == [] then d else Observed(st.pkts).origin == Some(c.orig.addr)
    ensures CountsAgree(c, Emit(c, st, d, flags, seqNo, ackNo, payload, letter, advance).pkts)
  {
    var p := Frame(c, st, d, flags, seqNo, ackNo, payload);
    ObservedSnoc(st.pkts, p);
    assert (st.pkts + [p])[..|st.pkts|] == st.pkts;
  }

  /** Recording any other letter leaves the retransmission letters as they were. */
  lemma GlyphsDiffer(chars: string, letter: Letter, d: bool)
    requires letter != Retransmit
    ensures forall e :: Glyph(Retransmit, e) in Record(chars, Glyph(letter, d)) <==> Glyph(Retransmit, e) in chars
  {
  }

  lemma FollowsData(z: Zeek, origin: Addr, seqs: Pair<int>, bytes: Pair<nat>, chars: string, retransmitted: Pair<bool>,
                    p: Packet, d: bool)
    requires Follows(z, origin, seqs, bytes, chars, retransmitted)
    requires (p.src == origin) == d && p.flags.FlagPA? && p.payload != [] && p.seqNo == seqs.Get(d)
    ensures Follows(ZeekStep(z, p), origin, seqs.Set(d, seqs.Get(d) + |p.payload|),
                    bytes.Set(d, bytes.Get(d) + |p.payload|), Record(chars, Glyph(Data, d)), retransmitted)
  {
    assert Classify(p, z.next.Get(d)) == Data;
    GlyphsDiffer(chars, Data, d);
  }

  lemma FollowsRepeat(
    z: Zeek, origin: Addr, seqs: Pair<int>, bytes: Pair<nat>, chars: string, retransmitted: Pair<bool>,
                      p: Packet, d: bool)
    requires Follows(z, origin, seqs, bytes, chars, retransmitted) && !retransmitted.Get(d)
    requires (p.src == origin) == d && p.flags.FlagPA? && p.payload != [] && p.seqNo == seqs.Get(d) - |p.payload|
    ensures Follows(
      ZeekStep(z, p), origin, seqs, bytes, Record(chars, Glyph(Retransmit, d)), retransmitted.Set(d, true))
  {
    assert Classify(p, z.next.Get(d)) == Retransmit;
    assert Record(chars, Glyph(Retransmit, d)) == chars + [Glyph(Retransmit, d)];
  }

  lemma FollowsAck(z: Zeek, origin: Addr, seqs: Pair<int>, bytes: Pair<nat>, chars: string, retransmitted: Pair<bool>,
                   p: Packet, d: bool)
    requires Follows(z, origin, seqs, bytes, chars, retransmitted)
    requires (p.src == origin) == d && p.flags.FlagA? && p.payload == [] && p.seqNo == seqs.Get(d)
    ensures Follows(ZeekStep(z, p), origin, seqs, bytes, Record(chars, Glyph(PureAck, d)), retransmitted)
  {
    assert Classify(p, z.next.Get(d)) == PureAck;
    GlyphsDiffer(chars, PureAck, d);
  }

  function OriginalTalk(c: Conn, t: Talk, d: bool, chunk: bytes): Talk {
    Talk(SendOriginal(c, t.st, d, t.seqs.Get(d), t.seqs.Get(!d), chunk), t.seqs.Set(d, t.seqs.Get(d) + |chunk|))
  }

  lemma ReceiverTakesOriginal(c: Conn, t: Talk, data: Pair<bytes>, d: bool, chunk: bytes)
    requires Distinct(c) && ReceiverAgrees(c, t, data) && chunk != []
    ensures ReceiverAgrees(c, OriginalTalk(c, t, d, chunk), data.Set(d, data.Get(d) + chunk))
  {
    var p := Frame(c, t.st, d, FlagPA, t.seqs.Get(d), t.seqs.Get(!d), chunk);
    ReceivedSnoc(c.orig.addr, t.st.pkts, p);
    ReceivedSnoc(c.resp.addr, t.st.pkts, p);
  }

  lemma ObserverTakesOriginal(c: Conn, t: Talk, d: bool, chunk: bytes)
    requires Distinct(c) && ObserverAgrees(c, t) && chunk != []
    ensures ObserverAgrees(c, OriginalTalk(c, t, d, chunk))
  {
    var p := Frame(c, t.st, d, FlagPA, t.seqs.Get(d), t.seqs.Get(!d), chunk);
    hide Follows;
    hide ZeekStep;
    hide Observed;
    ObservedSnoc(t.st.pkts, p);
    FollowsData(Observed(t.st.pkts), c.orig.addr, t.seqs, t.st.bytes, t.st.chars, t.st.retransmitted, p, d);
  }

  lemma AuditorTakesOriginal(c: Conn, t: Talk, d: bool, chunk: bytes)
    requires Distinct(c) && AuditorAgrees(c, t)
    ensures AuditorAgrees(c, OriginalTalk(c, t, d, chunk))
  {
    var p := Frame(c, t.st, d, FlagPA, t.seqs.Get(d), t.seqs.Get(!d), chunk);
    AuditedSnoc(c.orig.addr, t.st.pkts, p);
  }

  lemma {:induction false} SyncOriginal(c: Conn, t: Talk, data: Pair<bytes>, d: bool, chunk: bytes)
    requires Distinct(c) && Sync(c, t, data) && chunk != []
    ensures Sync(c, OriginalTalk(c, t, d, chunk), data.Set(d, data.Get(d) + chunk))
  {
    ReceiverTakesOriginal(c, t, data, d, chunk);
    ObserverTakesOriginal(c, t, d, chunk);
    EmitCounts(c, t.st, d, FlagPA, t.seqs.Get(d), t.seqs.Get(!d), chunk, Data, 0.0);
    AuditorTakesOriginal(c, t, d, chunk);
    EmitClocked(c, t.st, d, FlagPA, t.seqs.Get(d), t.seqs.Get(!d), chunk, Data, 0.0);
  }

  /** A repeat of the chunk just sent. */
  function RepeatTalk(c: Conn, t: Talk, d: bool, chunk: bytes): Talk {
    Talk(Emit(c, t.st.(retransmitted := t.st.retransmitted.Set(d, true)), d, FlagPA,
              t.seqs.Get(d) - |chunk|, t.seqs.Get(!d), chunk, Retransmit, 0.0), t.seqs)
  }

  ghost predicate EndsWith(data: bytes, chunk: bytes) {
    |chunk| <= |data| && data[|data| - |chunk|..] == chunk
  }

  lemma RepeatIsDiscarded(src: Addr, rx: Rx, p: Packet)
    requires p.src == src && !p.flags.Syn() && p.payload != []
    requires rx.next == Some(p.seqNo + |p.payload|) && EndsWith(rx.data, p.payload)
    ensures RxStep(src, rx, p) == rx
  {
    assert p.payload[..|p.payload|] == p.payload;
  }

  lemma ReceiverDiscardsRepeat(c: Conn, t: Talk, data: Pair<bytes>, d: bool, chunk: bytes)
    requires Distinct(c) && ReceiverAgrees(c, t, data) && chunk != [] && EndsWith(data.Get(d), chunk)
    ensures ReceiverAgrees(c, RepeatTalk(c, t, d, chunk), data)
  {
    var p := Frame(c, t.st, d, FlagPA, t.seqs.Get(d) - |chunk|, t.seqs.Get(!d), chunk);
    ReceivedSnoc(c.orig.addr, t.st.pkts, p);
    ReceivedSnoc(c.resp.addr, t.st.pkts, p);
    RepeatIsDiscarded(c.End(d), Received(c.End(d), t.st.pkts), p);
  }

  lemma ObserverTakesRepeat(c: Conn, t: Talk, d: bool, chunk: bytes)
    requires Distinct(c) && ObserverAgrees(c, t) && chunk != [] && !t.st.retransmitted.Get(d)
    ensures ObserverAgrees(c, RepeatTalk(c, t, d, chunk))
  {
    var p := Frame(c, t.st, d, FlagPA, t.seqs.Get(d) - |chunk|, t.seqs.Get(!d), chunk);
    hide Follows;
    hide ZeekStep;
    hide Observed;
    ObservedSnoc(t.st.pkts, p);
    FollowsRepeat(Observed(t.st.pkts), c.orig.addr, t.seqs, t.st.bytes, t.st.chars, t.st.retransmitted, p, d);
  }

  lemma AuditorTakesRepeat(c: Conn, t: Talk, d: bool, chunk: bytes)
    requires Distinct(c) && AuditorAgrees(c, t) && chunk != []
    requires FirstSeqs(c).Get(d) <= t.seqs.Get(d) - |chunk|
    ensures AuditorAgrees(c, RepeatTalk(c, t, d, chunk))
  {
    var p := Frame(c, t.st, d, FlagPA, t.seqs.Get(d) - |chunk|, t.seqs.Get(!d), chunk);
    AuditedSnoc(c.orig.addr, t.st.pkts, p);
  }

  lemma {:induction false} SyncRepeat(c: Conn, t: Talk, data: Pair<bytes>, d: bool, chunk: bytes)
    requires Distinct(c) && Sync(c, t, data) && chunk != [] && EndsWith(data.Get(d), chunk)
    requires !t.st.retransmitted.Get(d)
    ensures Sync(c, RepeatTalk(c, t, d, chunk), data)
  {
    hide ReceiverAgrees;
    hide AuditorAgrees;
    hide CountsAgree;
    hide Timely;
    hide Located;
    hide Echoed;
    hide Unspent;
    hide Received;
    var st := t.st.(retransmitted := t.st.retransmitted.Set(d, true));
    ReceiverDiscardsRepeat(c, t, data, d, chunk);
    ObserverTakesRepeat(c, t, d, chunk);
    AuditorTakesRepeat(c, t, d, chunk);
    EmitCounts(c, st, d, FlagPA, t.seqs.Get(d) - |chunk|, t.seqs.Get(!d), chunk, Retransmit, 0.0);
    EmitClocked(c, st, d, FlagPA, t.seqs.Get(d) - |chunk|, t.seqs.Get(!d), chunk, Retransmit, 0.0);
  }

  /** A pure acknowledgment of everything the peer has sent. */
  function AckTalk(c: Conn, t: Talk, d: bool): Talk {
    Talk(Emit(c, t.st, d, FlagA, t.seqs.Get(d), t.seqs.Get(!d), [], PureAck, 0.0), t.seqs)
  }

  lemma ObserverTakesAck(c: Conn, t: Talk, d: bool)
    requires Distinct(c) && ObserverAgrees(c, t)
    ensures ObserverAgrees(c, AckTalk(c, t, d))
  {
    var p := Frame(c, t.st, d, FlagA, t.seqs.Get(d), t.seqs.Get(!d), []);
    hide Follows;
    hide ZeekStep;
    hide Observed;
    ObservedSnoc(t.st.pkts, p);
    FollowsAck(Observed(t.st.pkts), c.orig.addr, t.seqs, t.st.bytes, t.st.chars, t.st.retransmitted, p, d);
  }

  lemma SyncAck(c: Conn, t: Talk, data: Pair<bytes>, d: bool)
    requires Distinct(c) && Sync(c, t, data)
    ensures Sync(c, AckTalk(c, t, d), data)
  {
    var p := Frame(c, t.st, d, FlagA, t.seqs.Get(d), t.seqs.Get(!d), []);
    ReceivedSnoc(c.orig.addr, t.st.pkts, p);
    ReceivedSnoc(c.resp.addr, t.st.pkts, p);
    AuditedSnoc(c.orig.addr, t.st.pkts, p);
    ObserverTakesAck(c, t, d);
    EmitCounts(c, t.st, d, FlagA, t.seqs.Get(d), t.seqs.Get(!d), [], PureAck, 0.0);
    EmitClocked(c, t.st, d, FlagA, t.seqs.Get(d), t.seqs.Get(!d), [], PureAck, 0.0);
  }

  // ---------------------------------------------------------------- delays

  /** Only the clock and the draw index have moved, and the clock not backwards. */
  ghost predicate Idles(c: Conn, st: Conv, st': Conv) {
    && st' == st.(k := st'.k, clock := st'.clock)
    && (c.rtt >= 0.0 ==> st'.clock >= st.clock)
  }

  lemma SyncIdle(c: Conn, t: Talk, data: Pair<bytes>, st': Conv)
    requires Sync(c, t, data) && Idles(c, t.st, st')
    ensures Sync(c, Talk(st', t.seqs), data)
  {
  }

  lemma JitForward(c: Conn, k: nat, base: real)
    requires base >= 0.0
    ensures Jit(c, k, base).amount >= 0.0
  {
  }

  lemma HGapForward(c: Conn, k: nat)
    requires c.rtt >= 0.0
    ensures HGap(c, k, c.rtt).amount >= 0.0
  {
    JitForward(c, k, c.rtt);
  }

  lemma MessageGapForward(c: Conn, k: nat)
    requires c.rtt >= 0.0
    ensures MessageGap(c, k).amount >= 0.0
  {
    HGapForward(c, k);
    JitForward(c, k + 1, 0.001 + (0.01 - 0.001) * c.rng.unit(k));
  }

  lemma RtoForward(c: Conn, k: nat, u: Unit)
    requires c.rtt >= 0.0
    ensures Jit(c, k, Rto(c, u)).amount >= 0.0
  {
    var h: real, v: real := c.Half(), 1.0 + u;
    assert h >= 0.0 && v >= 0.0;
    assert h * v >= 0.0;
    JitForward(c, k, h * v);
  }

  // ---------------------------------------------------------------- data exchange

  lemma {:induction false} SyncChunk(c: Conn, t: Talk, data: Pair<bytes>, d: bool, chunk: bytes, more: bool)
    requires Distinct(c) && Sync(c, t, data) && chunk != []
    ensures var st := SendChunk(c, t.st, d, t.seqs.Get(d), t.seqs.Get(!d), chunk, more);
            Sync(c, Talk(st, t.seqs.Set(d, t.seqs.Get(d) + |chunk|)), data.Set(d, data.Get(d) + chunk))
  {
    hide Sync;
    SyncOriginal(c, t, data, d, chunk);
    var t1 := OriginalTalk(c, t, d, chunk);
    var data1 := data.Set(d, data.Get(d) + chunk);
    var st2 := MaybeRetransmit(c, t1.st, d, t.seqs.Get(d), t.seqs.Get(!d), chunk);
    SyncMaybeRepeat(c, t1, data1, d, chunk);
    assert Sync(c, Talk(st2, t1.seqs), data1);
    if c.rtt >= 0.0 { HGapForward(c, st2.k); }
    SyncIdle(c, Talk(st2, t1.seqs), data1, Wait(st2, HGap(c, st2.k, c.rtt)));
  }

  lemma {:induction false} SyncMaybeRepeat(c: Conn, t: Talk, data: Pair<bytes>, d: bool, chunk: bytes)
    requires Distinct(c) && Sync(c, t, data) && chunk != [] && EndsWith(data.Get(d), chunk)
    ensures Sync(c, Talk(MaybeRetransmit(c, t.st, d, t.seqs.Get(d) - |chunk|, t.seqs.Get(!d), chunk), t.seqs), data)
  {
    hide Sync;
    var k := t.st.k;
    if c.texture.retransmitProb != 0.0 && !t.st.retransmitted.Get(d) {
      if c.rng.unit(k) < c.texture.retransmitProb {
        var s2 := Wait(t.st.(k := k + 1), Jit(c, k + 2, Rto(c, c.rng.unit(k + 1))));
        if c.rtt >= 0.0 { RtoForward(c, k + 2, c.rng.unit(k + 1)); }
        SyncIdle(c, t, data, s2);
        SyncRepeat(c, Talk(s2, t.seqs), data, d, chunk);
        assert RepeatTalk(c, Talk(s2, t.seqs), d, chunk)
            == Talk(MaybeRetransmit(c, t.st, d, t.seqs.Get(d) - |chunk|, t.seqs.Get(!d), chunk), t.seqs);
      } else {
        SyncIdle(c, t, data, t.st.(k := k + 1));
      }
    }
  }

  ghost predicate NonemptyChunks(chunks: seq<bytes>) {
    forall i :: 0 <= i < |chunks| ==> chunks[i] != []
  }

  lemma {:induction false} SyncChunks(c: Conn, t: Talk, data: Pair<bytes>, d: bool, chunks: seq<bytes>)
    requires Distinct(c) && Sync(c, t, data) && NonemptyChunks(chunks)
    ensures Sync(c, Talk(SendChunks(c, t.st, d, t.seqs.Get(d), t.seqs.Get(!d), chunks),
                         t.seqs.Set(d, t.seqs.Get(d) + Total(chunks))),
                 data.Set(d, data.Get(d) + Flatten(chunks)))
    decreases |chunks|
  {
    hide Sync;
    hide SendChunk;
    if chunks == [] {
      assert data.Get(d) + [] == data.Get(d);
      assert data.Set(d, data.Get(d)) == data && t.seqs.Set(d, t.seqs.Get(d)) == t.seqs;
    } else {
      var t1 := Talk(SendChunk(c, t.st, d, t.seqs.Get(d), t.seqs.Get(!d), chunks[0], |chunks| > 1),
                     t.seqs.Set(d, t.seqs.Get(d) + |chunks[0]|));
      var data1 := data.Set(d, data.Get(d) + chunks[0]);
      SyncChunk(c, t, data, d, chunks[0], |chunks| > 1);
      SyncChunks(c, t1, data1, d, chunks[1..]);
      assert data1.Get(d) + Flatten(chunks[1..]) == data.Get(d) + Flatten(chunks);
      assert data1.Set(d, data1.Get(d) + Flatten(chunks[1..])) == data.Set(d, data.Get(d) + Flatten(chunks));
      assert t1.seqs.Set(d, t1.seqs.Get(d) + Total(chunks[1..])) == t.seqs.Set(d, t.seqs.Get(d) + Total(chunks));
    }
  }

  /** The bytes a message puts on the wire. */
  function Carried(c: Conn, msg: Message): bytes {
    Flatten(Segment(msg.payload, c.SegSize(), c.minSegments))
  }

  lemma SegmentsNonempty(c: Conn, msg: Message)
    ensures NonemptyChunks(Segment(msg.payload, c.SegSize(), c.minSegments))
  {
    if c.SegSize() > 0 {
      SegmentContract(msg.payload, c.SegSize(), c.minSegments);
    }
  }

  lemma {:induction false} SyncMaybeDupAck(c: Conn, t: Talk, data: Pair<bytes>, d: bool)
    requires Distinct(c) && Sync(c, t, data)
    ensures Sync(c, Talk(MaybeDupAck(c, t.st, d, t.seqs.Get(d), t.seqs.Get(!d)), t.seqs), data)
  {
    hide Sync;
    var k := t.st.k;
    if c.texture.dupAckProb != 0.0 {
      if c.rng.unit(k) < c.texture.dupAckProb {
        var s2 := Wait(t.st.(k := k + 1), Jit(c, k + 1, c.Half() * 0.3));
        if c.rtt >= 0.0 { JitForward(c, k + 1, c.Half() * 0.3); }
        SyncIdle(c, t, data, s2);
        SyncAck(c, Talk(s2, t.seqs), data, d);
        assert AckTalk(c, Talk(s2, t.seqs), d).st == MaybeDupAck(c, t.st, d, t.seqs.Get(d), t.seqs.Get(!d));
      } else {
        SyncIdle(c, t, data, t.st.(k := k + 1));
      }
    }
  }

  lemma {:induction false} SyncMessage(c: Conn, t: Talk, data: Pair<bytes>, msg: Message)
    requires Distinct(c) && Sync(c, t, data)
    ensures Sync(c, SendMessage(c, t, msg), data.Set(msg.fromOrig, data.Get(msg.fromOrig) + Carried(c, msg)))
  {
    hide Sync;
    hide SendChunks;
    hide MaybeDupAck;
    hide Emit;
    hide Segment;
    hide HGap;
    hide MessageGap;
    var d := msg.fromOrig;
    var chunks := Segment(msg.payload, c.SegSize(), c.minSegments);
    var data1 := data.Set(d, data.Get(d) + Carried(c, msg));
    var seqs := t.seqs.Set(d, t.seqs.Get(d) + Total(chunks));
    var s1 := Wait(t.st, MessageGap(c, t.st.k));
    if c.rtt >= 0.0 { MessageGapForward(c, t.st.k); }
    SyncIdle(c, t, data, s1);
    SegmentsNonempty(c, msg);
    SyncChunks(c, Talk(s1, t.seqs), data, d, chunks);
    var s2 := SendChunks(c, s1, d, t.seqs.Get(d), t.seqs.Get(!d), chunks);
    var s3 := Wait(s2, HGap(c, s2.k, c.rtt));
    if c.rtt >= 0.0 { HGapForward(c, s2.k); }
    SyncIdle(c, Talk(s2, seqs), data1, s3);
    SyncAck(c, Talk(s3, seqs), data1, !d);
    SyncMaybeDupAck(c, AckTalk(c, Talk(s3, seqs), !d), data1, !d);
  }

  /** Per direction, the bytes all the messages put on the wire. */
  function AllCarried(c: Conn, msgs: seq<Message>, d: bool): bytes {
    if msgs == [] then []
    else (if msgs[0].fromOrig == d then Carried(c, msgs[0]) else []) + AllCarried(c, msgs[1..], d)
  }

  lemma {:induction false} SyncMessages(c: Conn, t: Talk, data: Pair<bytes>, msgs: seq<Message>)
    requires Distinct(c) && Sync(c, t, data)
    ensures Sync(c, SendAll(c, t, msgs),
                 Pair(data.orig + AllCarried(c, msgs, true), data.resp + AllCarried(c, msgs, false)))
    decreases |msgs|
  {
    hide Sync;
    hide SendMessage;
    hide Carried;
    hide Distinct;
    if msgs == [] {
      assert data.orig + [] == data.orig && data.resp + [] == data.resp;
    } else {
      var d := msgs[0].fromOrig;
      var data1 := data.Set(d, data.Get(d) + Carried(c, msgs[0]));
      SyncMessage(c, t, data, msgs[0]);
      SyncMessages(c, SendMessage(c, t, msgs[0]), data1, msgs[1..]);
      assert forall e :: data1.Get(e) + AllCarried(c, msgs[1..], e) == data.Get(e) + AllCarried(c, msgs, e);
      assert Pair(data1.orig + AllCarried(c, msgs[1..], true), data1.resp + AllCarried(c, msgs[1..], false))
          == Pair(data.orig + AllCarried(c, msgs, true), data.resp + AllCarried(c, msgs, false));
    }
  }
}
