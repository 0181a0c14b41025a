/** The pcapng writer, and a reader written from the block structure alone. */
module Pcapng {
  import opened Numbers
  import opened Seqs
  import opened Bytes

  const SHB: int := 0x0A0D0D0A
  const IDB: int := 0x00000001
  const EPB: int := 0x00000006
  const OPT_COMMENT: int := 1
  const OPT_END: int := 0
  const BYTE_ORDER_MAGIC: int := 0x1A2B3C4D

  /** A rendered packet as the writer sees it. */
  datatype Frame = Frame(time: real, raw: bytes)

  // ---------------------------------------------------------------- writer

  function PadLen(n: nat): (r: nat)
    ensures n <= r < n + 4 && r % 4 == 0
  {
    var m: int := n;
    n + (-m) % 4
  }

  function Zeros(n: nat): (r: bytes)
    ensures |r| == n
  {
    seq(n, _ => 0)
  }

  function Pad4(b: bytes): (r: bytes)
    ensures |r| == PadLen(|b|) && r[..|b|] == b
  {
    b + Zeros(PadLen(|b|) - |b|)
  }

  function Block(btype: int, body: bytes): (r: bytes)
    ensures |r| == 12 + PadLen(|body|)
  {
    var total := 12 + |Pad4(body)|;
    Le32(btype) + Le32(total) + Pad4(body) + Le32(total)
  }

  lemma OptionsLength(n: nat)
    ensures (8 + PadLen(n)) % 4 == 0
  {
    hide PadLen;
  }

  /** `comment` is the UTF-8 encoding of the comment. */
  function Options(comment: bytes): (r: bytes)
    ensures |r| % 4 == 0
  {
    if comment == [] then []
    else
      OptionsLength(|comment|);
      Le16(OPT_COMMENT) + Le16(|comment|) + Pad4(comment) + (Le16(OPT_END) + Le16(0))
  }

  /** Python's `round`: to nearest, ties to even. */
  function Round(x: real): int {
    var f := x.Floor;
    var d := x - f as real;
    if d < 0.5 then f
    else if d > 0.5 then f + 1
    else if f % 2 == 0 then f
    else f + 1
  }

  /** The microsecond timestamp, by way of whole seconds, rounded microseconds and a carry. */
  function Ticks(time: real): int {
    var sec := Trunc(time);
    var usec := Round((time - sec as real) * 1000000.0);
    var (s, u) := if usec >= 1000000 then (sec + 1, usec - 1000000) else (sec, usec);
    s * 1000000 + u
  }

  function LinkNumber(linkType: string): Option<nat> {
    if linkType == "ethernet" then Some(1)
    else if linkType == "linux_sll" then Some(113)
    else None
  }

  function ShbBody(fileComment: bytes): bytes {
    Le32(BYTE_ORDER_MAGIC) + Le16(1) + Le16(0) + seq(8, _ => 255) + Options(fileComment)
  }

  function IdbBody(link: nat): bytes {
    Le16(link) + Le16(0) + Le32(0)
  }

  function EpbBody(ticks: int, raw: bytes, comment: bytes): bytes {
    Le32(0) + Le32(ticks / TWO_32) + Le32(ticks % TWO_32) + Le32(|raw|) + Le32(|raw|) + Pad4(raw) + Options(comment)
  }

  function CommentAt(comments: seq<bytes>, i: nat): bytes {
    if i < |comments| then comments[i] else []
  }

  /** Every field the body packs is in range, and so is the block's total length. */
  predicate PacketFits(f: Frame, comment: bytes) {
    && 0 <= Ticks(f.time) < TWO_32 * TWO_32
    && |f.raw| < TWO_32
    && |comment| < TWO_16
    && 12 + PadLen(|EpbBody(Ticks(f.time), f.raw, comment)|) < TWO_32
  }

  /** When the source writes a file rather than raising an error. */
  predicate Writable(frames: seq<Frame>, linkType: string, comments: seq<bytes>, fileComment: bytes) {
    && LinkNumber(linkType).Some?
    && |fileComment| < TWO_16
    && forall i :: 0 <= i < |frames| ==> PacketFits(frames[i], CommentAt(comments, i))
  }

  datatype RawBlock = RawBlock(btype: int, body: bytes)

  function PacketBlocks(frames: seq<Frame>, comments: seq<bytes>, n: nat): seq<RawBlock>
    requires n <= |frames|
  {
    if n == 0 then []
    else PacketBlocks(frames, comments, n - 1)
         + [RawBlock(EPB, EpbBody(Ticks(frames[n - 1].time), frames[n - 1].raw, CommentAt(comments, n - 1)))]
  }

  function FileBlocks(frames: seq<Frame>, link: nat, comments: seq<bytes>, fileComment: bytes): seq<RawBlock> {
    [RawBlock(SHB, ShbBody(fileComment)), RawBlock(IDB, IdbBody(link))] + PacketBlocks(frames, comments, |frames|)
  }

  function Serialize(blocks: seq<RawBlock>): bytes {
    if blocks == [] then []
    else Serialize(blocks[..|blocks| - 1]) + Block(blocks[|blocks| - 1].btype, blocks[|blocks| - 1].body)
  }

  // ---------------------------------------------------------------- reader

  datatype Cut = Cut(block: RawBlock, size: nat)

  /** One block at the front: both copies of its length must agree, be aligned and lie inside the data. */
  function ReadBlock(b: bytes): (r: Option<Cut>)
    ensures r.Some? ==> 12 <= r.value.size <= |b|
  {
    if |b| < 12 then None
    else
      var total := U32At(b, 4);
      if total < 12 || total % 4 != 0 || total > |b| || U32At(b, total - 4) != total then None
      else Some(Cut(RawBlock(U32At(b, 0), b[8..total - 4]), total))
  }

  function ReadAll(b: bytes): Option<seq<RawBlock>>
    decreases |b|
  {
    if b == [] then Some([])
    else
      match ReadBlock(b)
      case None => None
      case Some(cut) =>
        match ReadAll(b[cut.size..])
        case None => None
        case Some(rest) => Some([cut.block] + rest)
  }

  /** The last block, found from its trailing length. */
  function ReadLast(b: bytes): (r: Option<Cut>)
    ensures r.Some? ==> 12 <= r.value.size <= |b|
  {
    if |b| < 12 then None
    else
      var total := U32At(b, |b| - 4);
      if total < 12 || total > |b| then None
      else
        match ReadBlock(b[|b| - total..])
        case None => None
        case Some(cut) => if cut.size == total then Some(cut) else None
  }

  /** Blocks from the end of the data to its start. */
  function ReadBackwards(b: bytes): Option<seq<RawBlock>>
    decreases |b|
  {
    if b == [] then Some([])
    else
      match ReadLast(b)
      case None => None
      case Some(cut) =>
        match ReadBackwards(b[..|b| - cut.size])
        case None => None
        case Some(rest) => Some([cut.block] + rest)
  }

  datatype Opt = Opt(code: nat, value: bytes)

  /** Type-length-value options, padded to four bytes, ended by the data or by code 0. */
  function ReadOptions(b: bytes): Option<seq<Opt>>
    decreases |b|
  {
    if b == [] then Some([])
    else if |b| < 4 then None
    else
      var code, len := U16At(b, 0), U16At(b, 2);
      if code == OPT_END then (if len == 0 then Some([]) else None)
      else if 4 + PadLen(len) > |b| then None
      else
        match ReadOptions(b[4 + PadLen(len)..])
        case None => None
        case Some(rest) => Some([Opt(code, b[4..4 + len])] + rest)
  }

  function CommentOf(opts: seq<Opt>): bytes {
    if opts == [] then [] else if opts[0].code == OPT_COMMENT then opts[0].value else CommentOf(opts[1..])
  }

  datatype Record = Record(ticks: int, raw: bytes, originalLength: nat, comment: bytes)

  datatype File = File(fileComment: bytes, link: nat, records: seq<Record>)

  function ReadSection(body: bytes): Option<bytes> {
    if |body| < 16 || U32At(body, 0) != BYTE_ORDER_MAGIC || U16At(body, 4) != 1 || U16At(body, 6) != 0 then None
    else
      match ReadOptions(body[16..])
      case None => None
      case Some(opts) => Some(CommentOf(opts))
  }

  function ReadInterface(body: bytes): Option<nat> {
    if |body| < 8 then None else Some(U16At(body, 0))
  }

  function ReadPacket(body: bytes): Option<Record> {
    if |body| < 20 then None
    else
      var captured := U32At(body, 12);
      if 20 + PadLen(captured) > |body| then None
      else
        match ReadOptions(body[20 + PadLen(captured)..])
        case None => None
        case Some(opts) =>
          var ticks := U32At(body, 4) * TWO_32 + U32At(body, 8);
          Some(Record(ticks, body[20..20 + captured], U32At(body, 16), CommentOf(opts)))
  }

  function ReadPackets(blocks: seq<RawBlock>): Option<seq<Record>> {
    if blocks == [] then Some([])
    else
      var last := blocks[|blocks| - 1];
      match ReadPackets(blocks[..|blocks| - 1])
      case None => None
      case Some(before) =>
        if last.btype != EPB then None
        else
          match ReadPacket(last.body)
          case None => None
          case Some(record) => Some(before + [record])
  }

  function ReadFile(b: bytes): Option<File> {
    match ReadAll(b)
    case None => None
    case Some(blocks) =>
      if |blocks| < 2 || blocks[0].btype != SHB || blocks[1].btype != IDB then None
      else
        match (ReadSection(blocks[0].body), ReadInterface(blocks[1].body), ReadPackets(blocks[2..]))
        case (Some(comment), Some(link), Some(records)) => Some(File(comment, link, records))
        case _ => None
  }

  // ---------------------------------------------------------------- timestamps

  /** Rounding commutes with shifting by an even integer: the parity that breaks ties is unchanged. */
  lemma RoundShift(x: real, m: int)
    requires m % 2 == 0
    ensures Round(x - m as real) == Round(x) - m
  {
    assert (x - m as real).Floor == x.Floor - m;
  }

  lemma RoundNearest(x: real)
    ensures -0.5 <= Round(x) as real - x <= 0.5
  {
  }

  lemma Twice(h: int)
    ensures (2 * h) % 2 == 0
  {
  }

  /** Taking whole seconds off first takes an even number of microseconds off. */
  lemma Microseconds(time: real, sec: int) returns (m: int)
    ensures m == sec * 1000000 && m % 2 == 0
    ensures (time - sec as real) * 1000000.0 == time * 1000000.0 - m as real
  {
    var h := sec * 500000;
    m := 2 * h;
    Twice(h);
  }

  /** The carry only moves a million microseconds into a second. */
  lemma CarryExact(time: real)
    ensures Ticks(time) == Trunc(time) * 1000000 + Round((time - Trunc(time) as real) * 1000000.0)
  {
    hide Round;
    hide Trunc;
  }

  lemma RoundApart(x: real, m: int, y: real)
    requires m % 2 == 0 && y == x - m as real
    ensures m + Round(y) == Round(x) && -0.5 <= Round(x) as real - x <= 0.5
  {
    hide Round;
    RoundShift(x, m);
    RoundNearest(x);
  }

  /** Seconds, microseconds and carry together are just rounding to the nearest microsecond. */
  lemma {:induction false} TicksExact(time: real)
    ensures Ticks(time) == Round(time * 1000000.0)
    ensures -0.5 <= Ticks(time) as real - time * 1000000.0 <= 0.5
  {
    hide Round;
    hide Trunc;
    hide Ticks;
    CarryExact(time);
    var m := Microseconds(time, Trunc(time));
    RoundApart(time * 1000000.0, m, (time - Trunc(time) as real) * 1000000.0);
  }

  /** So the written timestamps are in the order of the packets. */
  lemma TicksMonotone(a: real, b: real)
    requires a <= b
    ensures Ticks(a) <= Ticks(b)
  {
    hide Ticks;
    TicksExact(a);
    TicksExact(b);
    assert (a * 1000000.0).Floor <= (b * 1000000.0).Floor;
  }
}
