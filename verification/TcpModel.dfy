/**
 The TCP conversation compiler as a function: every packet `build_tcp_flow` emits, in order, for a
 given sequence of random draws. `TcpBuilder` is the same routine with its closures' mutable state.
 */
module TcpModel {
  import opened Numbers
  import opened Seqs
  import opened Bytes
  import opened Segmentation

  const MSS: int := 1460
  const MAX_SEG: int := 64000

  datatype Addr = Addr(ip: string, port: nat)

  datatype Endpoint = Endpoint(addr: Addr, timestamps: bool)

  datatype Texture = Texture(
    jitterFrac: real, retransmitProb: real, dupAckProb: real, lingerScale: real, heavyTiming: bool)

  datatype Message = Message(fromOrig: bool, payload: bytes)

  /** The flag strings the builder sets on its segments. */
  datatype Flags = FlagS | FlagSA | FlagA | FlagPA | FlagFA | FlagR | FlagRA
  {
    predicate Syn() { FlagS? || FlagSA? }
    predicate Ack() { FlagSA? || FlagA? || FlagPA? || FlagFA? || FlagRA? }
    predicate Fin() { FlagFA? }
    predicate Rst() { FlagR? || FlagRA? }
  }

  datatype Timestamp = Timestamp(tsVal: nat, tsEcr: nat)

  datatype Proto = Tcp | Udp | Icmp

  /** What a capture shows of one packet. Sequence numbers are unreduced, as in the source. */
  datatype Packet = Packet(
    time: real, proto: Proto, src: Addr, dst: Addr, flags: Flags, seqNo: int, ackNo: int,
    payload: bytes, ts: Option<Timestamp>)

  datatype ConnState = S0 | REJ | SF | RSTO | RSTR | OtherState(name: string)
  {
    predicate Established() { SF? || RSTO? || RSTR? }
    predicate Supported() { !OtherState? }
  }

  type Unit = x: real | 0.0 <= x < 1.0 witness 0.0
  type NonNeg = x: real | 0.0 <= x witness 0.0
  type Word32 = x: int | 0 <= x < TWO_32
  type TsSeed = x: int | 1_000_000 <= x <= 2_000_000_000 witness 1_000_000

  /**
   A random source as an arbitrary oracle: the initial sequence numbers and timestamp bases drawn
   first, per direction, then the k-th draw as a uniform number or as a nonnegative draw from an
   unbounded distribution (exponential, lognormal).
   */
  datatype Rng = Rng(isn: bool -> Word32, tsBase: bool -> TsSeed, unit: nat -> Unit, tail: nat -> NonNeg)

  /** Everything `build_tcp_flow` is given besides the messages. */
  datatype Conn = Conn(
    orig: Endpoint, resp: Endpoint, start: real, rtt: real, texture: Texture,
    segBytes: Option<int>, minSegments: int, state: ConnState, rng: Rng)
  {
    function End(fromOrig: bool): Addr {
      if fromOrig then orig.addr else resp.addr
    }

    function Isn(fromOrig: bool): Word32 { rng.isn(fromOrig) }

    predicate TsActive() { orig.timestamps && resp.timestamps }

    function NetRtt(): real {
      if texture.heavyTiming && !(rtt < 0.05) then 0.05 else rtt
    }

    function Half(): real { NetRtt() / 2.0 }

    /** `min(_SEG_BYTES.get() or MSS, _MAX_SEG)`: None and 0 both mean the default. */
    function SegSize(): (m: int)
      ensures m != 0
      ensures m > 0 <==> segBytes.None? || segBytes.value >= 0
    {
      Min(if segBytes.None? || segBytes.value == 0 then MSS else segBytes.value, MAX_SEG)
    }
  }

  /** The state the source keeps in its closures: draws used, clock, packets, history and per-direction counters. */
  datatype Conv = Conv(
    k: nat, clock: real, pkts: seq<Packet>, chars: string,
    bytes: Pair<nat>, retransmitted: Pair<bool>, tsLast: Pair<nat>)

  // ---------------------------------------------------------------- history letters

  datatype Letter = Syn | SynAck | PureAck | Data | Retransmit | Fin | Rst

  /** Uppercase for the originator, lowercase for the responder. */
  function Glyph(letter: Letter, fromOrig: bool): char {
    match letter
    case Syn => if fromOrig then 'S' else 's'
    case SynAck => if fromOrig then 'H' else 'h'
    case PureAck => if fromOrig then 'A' else 'a'
    case Data => if fromOrig then 'D' else 'd'
    case Retransmit => if fromOrig then 'T' else 't'
    case Fin => if fromOrig then 'F' else 'f'
    case Rst => if fromOrig then 'R' else 'r'
  }

  /** First occurrences only. */
  function Record(chars: string, ch: char): string {
    if ch in chars then chars else chars + [ch]
  }

  // ---------------------------------------------------------------- clock

  /** A delay and the index of the next unused draw. */
  datatype Gap = Gap(amount: real, k: nat)

  function Jit(c: Conn, k: nat, base: real): Gap {
    if c.texture.jitterFrac == 0.0 then Gap(base, k)
    else Gap(MaxReal(0.0, base * (1.0 + c.texture.jitterFrac * (c.rng.unit(k) * 2.0 - 1.0))), k + 1)
  }

  function HGap(c: Conn, k: nat, mean: real): Gap {
    if !(c.texture.heavyTiming && mean > 0.0) then Jit(c, k, mean)
    else Gap(MinReal(90.0, c.rng.tail(k)), k + 1)
  }

  /** `rng.uniform(lo, hi)` passed through the jitter. */
  function JitUniform(c: Conn, k: nat, lo: real, hi: real): Gap {
    Jit(c, k + 1, lo + (hi - lo) * c.rng.unit(k))
  }

  function Wait(st: Conv, g: Gap): Conv {
    st.(clock := st.clock + g.amount, k := g.k)
  }

  // ---------------------------------------------------------------- emission

  function TsVal(c: Conn, fromOrig: bool, clock: real): nat {
    (c.rng.tsBase(fromOrig) + Trunc((clock - c.start) * 1000.0)) % TWO_32
  }

  function Frame(c: Conn, st: Conv, fromOrig: bool, flags: Flags, seqNo: int, ackNo: int, payload: bytes): Packet {
    var ts := if c.TsActive()
              then Some(Timestamp(TsVal(c, fromOrig, st.clock), st.tsLast.Get(!fromOrig)))
              else None;
    Packet(st.clock, Tcp, c.End(fromOrig), c.End(!fromOrig), flags, seqNo, ackNo, payload, ts)
  }

  /** Build a frame, append it, record its letter, advance the clock. */
  function Emit(c: Conn, st: Conv, fromOrig: bool, flags: Flags, seqNo: int, ackNo: int, payload: bytes,
                letter: Letter, advance: real): Conv
  {
    st.(pkts := st.pkts + [Frame(c, st, fromOrig, flags, seqNo, ackNo, payload)],
        chars := Record(st.chars, Glyph(letter, fromOrig)),
        tsLast := if c.TsActive() then st.tsLast.Set(fromOrig, TsVal(c, fromOrig, st.clock)) else st.tsLast,
        clock := st.clock + advance)
  }

  function Start(c: Conn): Conv {
    Conv(0, c.start, [], "", Pair(0, 0), Pair(false, false), Pair(0, 0))
  }

  /** The opening packets. An SYN carries no acknowledgment number; scapy writes 0. */
  function Opening(c: Conn): Conv {
    var st := Start(c);
    var o, r := c.Isn(true), c.Isn(false);
    match c.state
    case S0 =>
      Wait(Emit(c, st, true, FlagS, o, 0, [], Syn, 0.0), Gap(c.rtt, st.k))
    case REJ =>
      var s1 := Emit(c, st, true, FlagS, o, 0, [], Syn, c.Half());
      Wait(Emit(c, s1, false, FlagRA, 0, o + 1, [], Rst, 0.0), Gap(c.rtt, st.k))
    case OtherState(_) => st
    case _ =>
      var s1 := Emit(c, st, true, FlagS, o, 0, [], Syn, c.Half());
      var s2 := Emit(c, s1, false, FlagSA, r, o + 1, [], SynAck, c.Half());
      Emit(c, s2, true, FlagA, o + 1, r + 1, [], PureAck, 0.0)
  }

  function FirstSeqs(c: Conn): Pair<int> {
    Pair(c.Isn(true) + 1, c.Isn(false) + 1)
  }

  // ---------------------------------------------------------------- data

  function SendOriginal(c: Conn, st: Conv, d: bool, seqNo: int, ackNo: int, chunk: bytes): Conv {
    Emit(c, st, d, FlagPA, seqNo, ackNo, chunk, Data, 0.0)
    .(bytes := st.bytes.Set(d, st.bytes.Get(d) + |chunk|))
  }

  function Rto(c: Conn, u: real): real {
    c.Half() * (1.0 + u)
  }

  /** At most one retransmission per direction, decided by a draw after each original segment. */
  function MaybeRetransmit(c: Conn, st: Conv, d: bool, seqNo: int, ackNo: int, chunk: bytes): Conv {
    if c.texture.retransmitProb == 0.0 || st.retransmitted.Get(d) then st
    else
      var s1 := st.(k := st.k + 1);
      if !(c.rng.unit(st.k) < c.texture.retransmitProb) then s1
      else
        var s2 := Wait(s1, Jit(c, s1.k + 1, Rto(c, c.rng.unit(s1.k))));
        Emit(c, s2.(retransmitted := s2.retransmitted.Set(d, true)), d, FlagPA, seqNo, ackNo, chunk, Retransmit, 0.0)
  }

  function SendChunk(c: Conn, st: Conv, d: bool, seqNo: int, ackNo: int, chunk: bytes, more: bool): Conv {
    var s1 := MaybeRetransmit(c, SendOriginal(c, st, d, seqNo, ackNo, chunk), d, seqNo, ackNo, chunk);
    if c.texture.heavyTiming && more then Wait(s1, HGap(c, s1.k, c.rtt)) else s1
  }

  function Total(chunks: seq<bytes>): nat {
    if chunks == [] then 0 else |chunks[0]| + Total(chunks[1..])
  }

  function SendChunks(c: Conn, st: Conv, d: bool, seqNo: int, ackNo: int, chunks: seq<bytes>): Conv
    decreases |chunks|
  {
    if chunks == [] then st
    else SendChunks(c, SendChunk(c, st, d, seqNo, ackNo, chunks[0], |chunks| > 1),
                    d, seqNo + |chunks[0]|, ackNo, chunks[1..])
  }

  function MaybeDupAck(c: Conn, st: Conv, d: bool, seqNo: int, ackNo: int): Conv {
    if c.texture.dupAckProb == 0.0 then st
    else
      var s1 := st.(k := st.k + 1);
      if !(c.rng.unit(st.k) < c.texture.dupAckProb) then s1
      else Emit(c, Wait(s1, Jit(c, s1.k, c.Half() * 0.3)), d, FlagA, seqNo, ackNo, [], PureAck, 0.0)
  }

  /** The conversation and the next sequence number of each side. */
  datatype Talk = Talk(st: Conv, seqs: Pair<int>)

  function MessageGap(c: Conn, k: nat): Gap {
    if c.texture.heavyTiming then HGap(c, k, c.rtt) else JitUniform(c, k, 0.001, 0.01)
  }

  /** One message: its segments, then the peer's acknowledgment of all of it. */
  function SendMessage(c: Conn, t: Talk, msg: Message): Talk {
    var d := msg.fromOrig;
    var chunks := Segment(msg.payload, c.SegSize(), c.minSegments);
    var s1 := Wait(t.st, MessageGap(c, t.st.k));
    var s2 := SendChunks(c, s1, d, t.seqs.Get(d), t.seqs.Get(!d), chunks);
    var seqs := t.seqs.Set(d, t.seqs.Get(d) + Total(chunks));
    var s3 := Wait(s2, HGap(c, s2.k, c.rtt));
    var s4 := Emit(c, s3, !d, FlagA, seqs.Get(!d), seqs.Get(d), [], PureAck, 0.0);
    Talk(MaybeDupAck(c, s4, !d, seqs.Get(!d), seqs.Get(d)), seqs)
  }

  function SendAll(c: Conn, t: Talk, msgs: seq<Message>): Talk
    decreases |msgs|
  {
    if msgs == [] then t else SendAll(c, SendMessage(c, t, msgs[0]), msgs[1..])
  }

  // ---------------------------------------------------------------- teardown and summary

  function Linger(c: Conn, st: Conv): Conv {
    var s1 :=
      if c.texture.lingerScale == 0.0 then st
      else if !(c.rng.unit(st.k) < 0.5) then st.(k := st.k + 1)
      else Wait(st, Gap(MinReal(250.0, c.rng.tail(st.k + 1)), st.k + 2));
    Wait(s1, JitUniform(c, s1.k, 0.02, 0.2))
  }

  function Closing(c: Conn, t: Talk): Conv {
    var st := Linger(c, t.st);
    var o, r := t.seqs.orig, t.seqs.resp;
    match c.state
    case SF =>
      var s1 := Emit(c, st, true, FlagFA, o, r, [], Fin, c.Half());
      var s2 := Emit(c, s1, false, FlagFA, r, o + 1, [], Fin, c.Half());
      Emit(c, s2, true, FlagA, o + 1, r + 1, [], PureAck, 0.0)
    case RSTO => Emit(c, st, true, FlagR, o, r, [], Rst, 0.0)
    case RSTR => Emit(c, st, false, FlagR, r, o, [], Rst, 0.0)
    case _ => st
  }

  function Conversation(c: Conn, msgs: seq<Message>): Conv {
    if c.state.Established()
    then Closing(c, SendAll(c, Talk(Opening(c), FirstSeqs(c)), msgs))
    else Opening(c)
  }

  datatype Summary = Summary(
    connState: ConnState, history: string, origPkts: nat, respPkts: nat,
    origBytes: nat, respBytes: nat, duration: real)

  /** Packets whose source IP is `ip`: how the summary tells directions apart. */
  function CountFromIp(pkts: seq<Packet>, ip: string): (n: nat)
    ensures n <= |pkts|
  {
    if pkts == [] then 0
    else CountFromIp(pkts[..|pkts| - 1], ip) + (if pkts[|pkts| - 1].src.ip == ip then 1 else 0)
  }

  function Duration(pkts: seq<Packet>): real {
    if pkts == [] then 0.0 else pkts[|pkts| - 1].time - pkts[0].time
  }

  function Summarize(c: Conn, st: Conv): Summary {
    var n := CountFromIp(st.pkts, c.orig.addr.ip);
    Summary(c.state, st.chars, n, |st.pkts| - n, st.bytes.orig, st.bytes.resp, Duration(st.pkts))
  }
}
