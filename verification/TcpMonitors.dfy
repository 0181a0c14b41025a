/**
 Independent readers of a capture. None of them knows how the packets were made: a TCP receiver that
 reassembles one direction, a Zeek-like observer, an auditor of sequence and acknowledgment numbers,
 and an auditor of timestamp echoes.
 */
module TcpMonitors {
  import opened Numbers
  import opened Seqs
  import opened Bytes
  import opened TcpModel

  // ---------------------------------------------------------------- receiver

  /** `gap`: data arrived beyond the next expected byte. `conflict`: a repeated byte had another value. */
  datatype Rx = Rx(next: Option<int>, data: bytes, gap: bool, conflict: bool)

  function RxStep(src: Addr, rx: Rx, p: Packet): Rx {
    if p.src != src then rx
    else if p.flags.Syn() then Rx(Some(p.seqNo + 1), [], false, false)
    else if p.payload == [] || rx.next.None? then rx
    else
      var known := rx.next.value - p.seqNo;
      if known < 0 then rx.(gap := true)
      else
        var back := |rx.data| - known;
        var seen := if known < |p.payload| then known else |p.payload|;
        var clash := back < 0 || rx.data[back..back + seen] != p.payload[..seen];
        if known >= |p.payload| then rx.(conflict := rx.conflict || clash)
        else Rx(Some(p.seqNo + |p.payload|), rx.data + p.payload[known..], rx.gap, rx.conflict || clash)
  }

  /** What `src` is understood to have sent. */
  function Received(src: Addr, pkts: seq<Packet>): Rx {
    if pkts == [] then Rx(None, [], false, false)
    else RxStep(src, Received(src, pkts[..|pkts| - 1]), pkts[|pkts| - 1])
  }

  lemma ReceivedSnoc(src: Addr, pkts: seq<Packet>, p: Packet)
    ensures Received(src, pkts + [p]) == RxStep(src, Received(src, pkts), p)
  {
    assert (pkts + [p])[..|pkts|] == pkts;
  }

  // ---------------------------------------------------------------- Zeek-like observer

  /**
   The sender of the first packet is the originator. `armed`: a retransmission in this direction
   would be recorded; Zeek records one per flight and re-arms when the peer answers.
   */
  datatype Zeek = Zeek(
    origin: Option<Addr>, synO: bool, synAckR: bool, fin: Pair<bool>, rst: Pair<bool>,
    next: Pair<int>, bytes: Pair<nat>, count: Pair<nat>, armed: Pair<bool>, history: string)

  const FreshZeek: Zeek :=
    Zeek(None, false, false, Pair(false, false), Pair(false, false), Pair(0, 0), Pair(0, 0), Pair(0, 0),
         Pair(true, true), "")

  /** Flags, length and sequence number decide the letter; a retransmission is old sequence space. */
  function Classify(p: Packet, next: int): Letter {
    if p.flags.Rst() then Rst
    else if p.flags.Syn() then (if p.flags.Ack() then SynAck else Syn)
    else if p.flags.Fin() then Fin
    else if p.payload == [] then PureAck
    else if p.seqNo < next then Retransmit
    else Data
  }

  function Span(p: Packet): int {
    |p.payload| + (if p.flags.Syn() || p.flags.Fin() then 1 else 0)
  }

  function ZeekStep(z: Zeek, p: Packet): Zeek {
    var origin := if z.origin.None? then p.src else z.origin.value;
    var d := p.src == origin;
    var letter := Classify(p, z.next.Get(d));
    Zeek(
      Some(origin),
      z.synO || (d && letter == Syn),
      z.synAckR || (!d && letter == SynAck),
      if letter == Fin then z.fin.Set(d, true) else z.fin,
      if letter == Rst then z.rst.Set(d, true) else z.rst,
      z.next.Set(d, Max(z.next.Get(d), p.seqNo + Span(p))),
      if letter == Data then z.bytes.Set(d, z.bytes.Get(d) + |p.payload|) else z.bytes,
      z.count.Set(d, z.count.Get(d) + 1),
      (if letter == Retransmit then z.armed.Set(d, false) else z.armed).Set(!d, true),
      if letter != Retransmit then Record(z.history, Glyph(letter, d))
      else if z.armed.Get(d) then z.history + [Glyph(letter, d)]
      else z.history)
  }

  function Observed(pkts: seq<Packet>): Zeek {
    if pkts == [] then FreshZeek
    else ZeekStep(Observed(pkts[..|pkts| - 1]), pkts[|pkts| - 1])
  }

  lemma ObservedSnoc(pkts: seq<Packet>, p: Packet)
    ensures Observed(pkts + [p]) == ZeekStep(Observed(pkts), p)
  {
    assert (pkts + [p])[..|pkts|] == pkts;
  }

  function Verdict(z: Zeek): ConnState {
    if !z.synO then OtherState("OTH")
    else if z.rst.orig then (if z.synAckR then RSTO else OtherState("RSTOS0"))
    else if z.rst.resp then (if z.synAckR then RSTR else REJ)
    else if !z.synAckR then (if z.fin.orig then OtherState("SH") else S0)
    else if z.fin.orig && z.fin.resp then SF
    else if z.fin.orig then OtherState("S2")
    else if z.fin.resp then OtherState("S3")
    else OtherState("S1")
  }

  /** The connection record the observer writes. */
  function ConnLog(pkts: seq<Packet>): Summary {
    var z := Observed(pkts);
    Summary(Verdict(z), z.history, z.count.orig, z.count.resp, z.bytes.orig, z.bytes.resp, Duration(pkts))
  }

  // ---------------------------------------------------------------- sequence auditor

  /**
   `base` and `end`: where each side's data starts, and one past the sequence space it has used.
   `acked`: each side's latest acknowledgment.
   */
  datatype Audit = Audit(open: Pair<bool>, base: Pair<int>, end: Pair<int>, acked: Pair<int>, ok: bool)

  /**
   New data starts where the previous data ended, a repeat lies inside the space already used, and an
   acknowledgment neither exceeds what the peer has sent nor goes back. The one segment a side that
   never opened may send is the reset of section 3.5.2 of RFC 9293: sequence 0, acknowledging the SYN.
   */
  function AuditStep(orig: Addr, a: Audit, p: Packet): Audit {
    var d := p.src == orig;
    var end := a.end.Get(d);
    var seqOk :=
      if p.flags.Syn() then !a.open.Get(d) && 0 <= p.seqNo
      else if !a.open.Get(d) then p.flags.FlagRA? && p.seqNo == 0 && p.ackNo == a.end.Get(!d)
      else p.seqNo == end || (p.payload != [] && a.base.Get(d) <= p.seqNo && p.seqNo + Span(p) <= end);
    var ackOk :=
      && 0 <= p.ackNo <= a.end.Get(!d)
      && (p.flags.Ack() ==> a.open.Get(!d) && a.acked.Get(d) <= p.ackNo);
    Audit(
      a.open.Set(d, a.open.Get(d) || p.flags.Syn()),
      if p.flags.Syn() then a.base.Set(d, p.seqNo + 1) else a.base,
      a.end.Set(d, Max(end, p.seqNo + Span(p))),
      if p.flags.Ack() then a.acked.Set(d, p.ackNo) else a.acked,
      a.ok && seqOk && ackOk)
  }

  function Audited(orig: Addr, pkts: seq<Packet>): Audit {
    if pkts == [] then Audit(Pair(false, false), Pair(0, 0), Pair(0, 0), Pair(0, 0), true)
    else AuditStep(orig, Audited(orig, pkts[..|pkts| - 1]), pkts[|pkts| - 1])
  }

  lemma AuditedSnoc(orig: Addr, pkts: seq<Packet>, p: Packet)
    ensures Audited(orig, pkts + [p]) == AuditStep(orig, Audited(orig, pkts), p)
  {
    assert (pkts + [p])[..|pkts|] == pkts;
  }

  // ---------------------------------------------------------------- timestamp echo

  /** The latest TSval of each side, and whether every TSecr so far equalled the peer's latest. */
  datatype Echo = Echo(last: Pair<nat>, ok: bool)

  function EchoStep(orig: Addr, e: Echo, p: Packet): Echo {
    match p.ts
    case None => e.(ok := false)
    case Some(t) =>
      var d := p.src == orig;
      Echo(e.last.Set(d, t.tsVal), e.ok && t.tsEcr == e.last.Get(!d))
  }

  function Echoed(orig: Addr, pkts: seq<Packet>): Echo {
    if pkts == [] then Echo(Pair(0, 0), true)
    else EchoStep(orig, Echoed(orig, pkts[..|pkts| - 1]), pkts[|pkts| - 1])
  }

  lemma EchoedSnoc(orig: Addr, pkts: seq<Packet>, p: Packet)
    ensures Echoed(orig, pkts + [p]) == EchoStep(orig, Echoed(orig, pkts), p)
  {
    assert (pkts + [p])[..|pkts|] == pkts;
  }

  // ---------------------------------------------------------------- time and place

  /** A TCP packet between these two endpoints, in either direction. */
  predicate Belongs(a: Addr, b: Addr, p: Packet) {
    p.proto.Tcp? && ((p.src == a && p.dst == b) || (p.src == b && p.dst == a))
  }

  ghost predicate InTimeOrder(pkts: seq<Packet>) {
    forall i, j :: 0 <= i < j < |pkts| ==> pkts[i].time <= pkts[j].time
  }
}
