/** Whatever the writer accepts, the reader gets back, forwards and backwards. */
module PcapngTheorems {
  import opened Seqs
  import opened Bytes
  import opened Pcapng

  // ---------------------------------------------------------------- blocks

  /** The block can be written: type and total length are 32-bit. */
  predicate BlockFits(b: RawBlock) {
    0 <= b.btype < TWO_32 && 12 + PadLen(|b.body|) < TWO_32
  }

  function Padded(b: RawBlock): RawBlock {
    RawBlock(b.btype, Pad4(b.body))
  }

  function AllPadded(blocks: seq<RawBlock>): (r: seq<RawBlock>)
    ensures |r| == |blocks|
  {
    if blocks == [] then [] else AllPadded(blocks[..|blocks| - 1]) + [Padded(blocks[|blocks| - 1])]
  }

  ghost predicate AllFit(blocks: seq<RawBlock>) {
    forall i :: 0 <= i < |blocks| ==> BlockFits(blocks[i])
  }

  lemma {:induction false} BlockReads(b: RawBlock, after: bytes)
    requires BlockFits(b)
    ensures ReadBlock(Block(b.btype, b.body) + after) == Some(Cut(Padded(b), |Block(b.btype, b.body)|))
  {
    hide Pad4;
    hide PadLen;
    var body := Pad4(b.body);
    var total := 12 + |body|;
    assert total % 4 == 0;
    var w := Block(b.btype, b.body) + after;
    assert w == [] + Le32(b.btype) + (Le32(total) + body + Le32(total) + after);
    Le32Reads([], b.btype, Le32(total) + body + Le32(total) + after);
    assert w == Le32(b.btype) + Le32(total) + (body + Le32(total) + after);
    Le32Reads(Le32(b.btype), total, body + Le32(total) + after);
    assert w == (Le32(b.btype) + Le32(total) + body) + Le32(total) + after;
    Le32Reads(Le32(b.btype) + Le32(total) + body, total, after);
    assert w[8..total - 4] == body;
    hide Le32;
    hide U32At;
  }

  lemma {:induction false} SerializeFirst(blocks: seq<RawBlock>)
    requires blocks != []
    ensures Serialize(blocks) == Block(blocks[0].btype, blocks[0].body) + Serialize(blocks[1..])
  {
    hide Block;
    var n := |blocks| - 1;
    var last := Block(blocks[n].btype, blocks[n].body);
    if n == 0 {
      assert blocks[..0] == [] && blocks[1..] == [];
      assert Serialize(blocks) == [] + last && last + [] == last;
    } else {
      SerializeFirst(blocks[..n]);
      assert blocks[1..][..n - 1] == blocks[..n][1..];
      assert Serialize(blocks[1..]) == Serialize(blocks[..n][1..]) + last;
    }
  }

  lemma {:induction false} PaddedFirst(blocks: seq<RawBlock>)
    requires blocks != []
    ensures AllPadded(blocks) == [Padded(blocks[0])] + AllPadded(blocks[1..])
  {
    var n := |blocks| - 1;
    if n == 0 {
      assert blocks[..0] == [] && blocks[1..] == [];
    } else {
      PaddedFirst(blocks[..n]);
      assert blocks[1..][..n - 1] == blocks[..n][1..];
    }
  }

  /** Reading forwards recovers every block. */
  lemma {:induction false} ForwardRead(blocks: seq<RawBlock>)
    requires AllFit(blocks)
    ensures ReadAll(Serialize(blocks)) == Some(AllPadded(blocks))
    decreases |blocks|
  {
    hide Block;
    hide ReadBlock;
    hide Padded;
    hide Serialize;
    if blocks == [] {
      SerializeNothing();
    } else {
      SerializeFirst(blocks);
      PaddedFirst(blocks);
      var front := Block(blocks[0].btype, blocks[0].body);
      BlockReads(blocks[0], Serialize(blocks[1..]));
      ForwardRead(blocks[1..]);
      assert (front + Serialize(blocks[1..]))[|front|..] == Serialize(blocks[1..]);
    }
  }

  lemma SerializeNothing()
    ensures Serialize([]) == []
  {
  }

  function Reverse<T>(s: seq<T>): (r: seq<T>)
    ensures |r| == |s| && forall i :: 0 <= i < |s| ==> r[i] == s[|s| - 1 - i]
  {
    if s == [] then [] else [s[|s| - 1]] + Reverse(s[..|s| - 1])
  }

  lemma {:induction false} LastReads(before: bytes, b: RawBlock)
    requires BlockFits(b)
    ensures ReadLast(before + Block(b.btype, b.body)) == Some(Cut(Padded(b), |Block(b.btype, b.body)|))
  {
    hide Le32;
    hide U32At;
    hide ReadBlock;
    hide Pad4;
    hide PadLen;
    var w := Block(b.btype, b.body);
    var total := 12 + |Pad4(b.body)|;
    var all := before + w;
    var head := before + (Le32(b.btype) + Le32(total) + Pad4(b.body));
    assert all == head + Le32(total) + [];
    Le32Reads(head, total, []);
    assert all[|all| - total..] == w + [];
    BlockReads(b, []);
  }

  /** Walking backwards by trailing lengths visits the same blocks in reverse. */
  lemma {:induction false} BackwardRead(blocks: seq<RawBlock>)
    requires AllFit(blocks)
    ensures ReadBackwards(Serialize(blocks)) == Some(Reverse(AllPadded(blocks)))
    decreases |blocks|
  {
    hide Block;
    hide ReadLast;
    hide Padded;
    if blocks != [] {
      var n := |blocks| - 1;
      var last := Block(blocks[n].btype, blocks[n].body);
      BackwardRead(blocks[..n]);
      LastReads(Serialize(blocks[..n]), blocks[n]);
      assert Serialize(blocks)[..|Serialize(blocks)| - |last|] == Serialize(blocks[..n]);
      assert AllPadded(blocks)[..n] == AllPadded(blocks[..n]);
    }
  }

  // ---------------------------------------------------------------- bodies

  lemma AlreadyPadded(b: bytes)
    requires |b| % 4 == 0
    ensures Pad4(b) == b
  {
    assert PadLen(|b|) == |b|;
  }

  lemma EndOptionReads()
    ensures ReadOptions(Le16(OPT_END) + Le16(0)) == Some([])
  {
    var tail := Le16(OPT_END) + Le16(0);
    hide Le16;
    assert tail == [] + Le16(OPT_END) + Le16(0);
    Le16Reads([], OPT_END, Le16(0));
    assert tail == Le16(OPT_END) + Le16(0) + [];
    Le16Reads(Le16(OPT_END), 0, []);
  }

  /** One option, then whatever follows it. */
  lemma {:induction false} OptionReads(code: int, value: bytes, tail: bytes)
    requires 0 <= code < TWO_16 && code != OPT_END && |value| < TWO_16 && ReadOptions(tail).Some?
    ensures ReadOptions(Le16(code) + Le16(|value|) + Pad4(value) + tail)
         == Some([Opt(code, value)] + ReadOptions(tail).value)
  {
    hide Le16;
    hide U16At;
    hide Pad4;
    hide PadLen;
    var padded := Pad4(value);
    var w := Le16(code) + Le16(|value|) + padded + tail;
    assert w == [] + Le16(code) + (Le16(|value|) + padded + tail);
    Le16Reads([], code, Le16(|value|) + padded + tail);
    assert w == Le16(code) + Le16(|value|) + (padded + tail);
    Le16Reads(Le16(code), |value|, padded + tail);
    assert w[4..4 + |value|] == padded[..|value|];
    assert w[4 + |padded|..] == tail;
  }

  lemma {:induction false} OptionsRead(comment: bytes)
    requires |comment| < TWO_16
    ensures ReadOptions(Options(comment)).Some?
    ensures CommentOf(ReadOptions(Options(comment)).value) == comment
  {
    hide Le16;
    hide Pad4;
    if comment != [] {
      EndOptionReads();
      OptionReads(OPT_COMMENT, comment, Le16(OPT_END) + Le16(0));
    }
  }

  lemma SectionReads(fileComment: bytes)
    requires |fileComment| < TWO_16
    ensures |ShbBody(fileComment)| % 4 == 0
    ensures ReadSection(ShbBody(fileComment)) == Some(fileComment)
  {
    hide Le32;
    hide Le16;
    hide U32At;
    hide U16At;
    hide Options;
    hide ReadOptions;
    hide CommentOf;
    var w := ShbBody(fileComment);
    var length: bytes := seq(8, _ => 255);
    var rest := length + Options(fileComment);
    assert w == [] + Le32(BYTE_ORDER_MAGIC) + (Le16(1) + Le16(0) + rest);
    Le32Reads([], BYTE_ORDER_MAGIC, Le16(1) + Le16(0) + rest);
    assert w == Le32(BYTE_ORDER_MAGIC) + Le16(1) + (Le16(0) + rest);
    Le16Reads(Le32(BYTE_ORDER_MAGIC), 1, Le16(0) + rest);
    assert w == (Le32(BYTE_ORDER_MAGIC) + Le16(1)) + Le16(0) + rest;
    Le16Reads(Le32(BYTE_ORDER_MAGIC) + Le16(1), 0, rest);
    assert w[16..] == Options(fileComment);
    OptionsRead(fileComment);
  }

  lemma InterfaceReads(link: nat)
    requires link < TWO_16
    ensures |IdbBody(link)| == 8 && ReadInterface(IdbBody(link)) == Some(link)
  {
    assert IdbBody(link) == [] + Le16(link) + (Le16(0) + Le32(0));
    Le16Reads([], link, Le16(0) + Le32(0));
  }

  /** The five header words of an enhanced packet block. */
  lemma {:induction false} PacketHeaderReads(hi: int, lo: int, n: int, rest: bytes)
    requires 0 <= hi < TWO_32 && 0 <= lo < TWO_32 && 0 <= n < TWO_32
    ensures var w := Le32(0) + Le32(hi) + Le32(lo) + Le32(n) + Le32(n) + rest;
            && |w| == 20 + |rest| && w[20..] == rest
            && U32At(w, 4) == hi && U32At(w, 8) == lo && U32At(w, 12) == n && U32At(w, 16) == n
  {
    hide Le32;
    hide U32At;
    var w := Le32(0) + Le32(hi) + Le32(lo) + Le32(n) + Le32(n) + rest;
    assert w == Le32(0) + Le32(hi) + (Le32(lo) + Le32(n) + Le32(n) + rest);
    Le32Reads(Le32(0), hi, Le32(lo) + Le32(n) + Le32(n) + rest);
    assert w == (Le32(0) + Le32(hi)) + Le32(lo) + (Le32(n) + Le32(n) + rest);
    Le32Reads(Le32(0) + Le32(hi), lo, Le32(n) + Le32(n) + rest);
    assert w == (Le32(0) + Le32(hi) + Le32(lo)) + Le32(n) + (Le32(n) + rest);
    Le32Reads(Le32(0) + Le32(hi) + Le32(lo), n, Le32(n) + rest);
    Le32Reads(Le32(0) + Le32(hi) + Le32(lo) + Le32(n), n, rest);
  }

  lemma {:induction false} PacketReads(ticks: int, raw: bytes, comment: bytes)
    requires 0 <= ticks < TWO_32 * TWO_32 && |raw| < TWO_32 && |comment| < TWO_16
    ensures |EpbBody(ticks, raw, comment)| % 4 == 0
    ensures ReadPacket(EpbBody(ticks, raw, comment)) == Some(Record(ticks, raw, |raw|, comment))
  {
    hide Le32;
    hide U32At;
    hide Options;
    hide Pad4;
    hide ReadOptions;
    hide CommentOf;
    var hi, lo, n := ticks / TWO_32, ticks % TWO_32, |raw|;
    var w := EpbBody(ticks, raw, comment);
    var rest := Pad4(raw) + Options(comment);
    assert w == Le32(0) + Le32(hi) + Le32(lo) + Le32(n) + Le32(n) + rest;
    PacketHeaderReads(hi, lo, n, rest);
    assert w[20..20 + n] == rest[..n] == Pad4(raw)[..n];
    assert w[20 + PadLen(n)..] == rest[PadLen(n)..] == Options(comment);
    OptionsRead(comment);
  }

  // ---------------------------------------------------------------- files

  function Records(frames: seq<Frame>, comments: seq<bytes>, n: nat): seq<Record>
    requires n <= |frames|
  {
    if n == 0 then []
    else
      var f := frames[n - 1];
      Records(frames, comments, n - 1) + [Record(Ticks(f.time), f.raw, |f.raw|, CommentAt(comments, n - 1))]
  }

  /** One packet block on its own: it fits, needs no padding, and reads back. */
  lemma PacketBlockReads(f: Frame, comment: bytes)
    requires PacketFits(f, comment)
    ensures var b := RawBlock(EPB, EpbBody(Ticks(f.time), f.raw, comment));
            && BlockFits(b) && Padded(b) == b
            && ReadPacket(b.body) == Some(Record(Ticks(f.time), f.raw, |f.raw|, comment))
  {
    hide EpbBody;
    hide ReadPacket;
    hide Ticks;
    hide Pad4;
    hide PadLen;
    PacketReads(Ticks(f.time), f.raw, comment);
    AlreadyPadded(EpbBody(Ticks(f.time), f.raw, comment));
  }

  lemma BlocksSnoc(before: seq<RawBlock>, b: RawBlock)
    ensures AllPadded(before + [b]) == AllPadded(before) + [Padded(b)]
    ensures AllFit(before) && BlockFits(b) ==> AllFit(before + [b])
    ensures ReadPackets(before).Some? && b.btype == EPB && ReadPacket(b.body).Some? ==>
      ReadPackets(before + [b]) == Some(ReadPackets(before).value + [ReadPacket(b.body).value])
  {
    hide ReadPacket;
    hide Padded;
    hide BlockFits;
    assert (before + [b])[..|before|] == before;
  }

  lemma {:induction false} PacketBlocksRead(frames: seq<Frame>, comments: seq<bytes>, n: nat)
    requires n <= |frames|
    requires forall i :: 0 <= i < |frames| ==> PacketFits(frames[i], CommentAt(comments, i))
    ensures var blocks := PacketBlocks(frames, comments, n);
            && AllFit(blocks) && AllPadded(blocks) == blocks
            && ReadPackets(blocks) == Some(Records(frames, comments, n))
  {
    hide EpbBody;
    hide ReadPacket;
    hide Ticks;
    hide Padded;
    hide BlockFits;
    hide PacketFits;
    if n > 0 {
      hide AllFit;
      hide AllPadded;
      hide ReadPackets;
      var f, comment := frames[n - 1], CommentAt(comments, n - 1);
      PacketBlocksRead(frames, comments, n - 1);
      PacketBlockReads(f, comment);
      BlocksSnoc(PacketBlocks(frames, comments, n - 1), RawBlock(EPB, EpbBody(Ticks(f.time), f.raw, comment)));
    }
  }

  /** The header blocks are written as they stand. */
  lemma {:induction false} HeaderPadded(a: RawBlock, b: RawBlock, rest: seq<RawBlock>)
    requires Padded(a) == a && Padded(b) == b && AllPadded(rest) == rest
    ensures AllPadded([a, b] + rest) == [a, b] + rest
  {
    PaddedFirst([a, b] + rest);
    assert ([a, b] + rest)[1..] == [b] + rest;
    PaddedFirst([b] + rest);
    assert ([b] + rest)[1..] == rest;
  }

  lemma {:induction false} FileBlocksRead(
    frames: seq<Frame>, linkType: string, comments: seq<bytes>, fileComment: bytes)
    requires Writable(frames, linkType, comments, fileComment)
    ensures var blocks := FileBlocks(frames, LinkNumber(linkType).value, comments, fileComment);
            AllFit(blocks) && AllPadded(blocks) == blocks
  {
    hide PacketBlocks;
    hide AllPadded;
    hide ShbBody;
    hide IdbBody;
    hide Pad4;
    hide PacketFits;
    var link := LinkNumber(linkType).value;
    var rest := PacketBlocks(frames, comments, |frames|);
    SectionReads(fileComment);
    SectionSize(fileComment);
    InterfaceReads(link);
    AlreadyPadded(ShbBody(fileComment));
    AlreadyPadded(IdbBody(link));
    PacketBlocksRead(frames, comments, |frames|);
    HeaderPadded(RawBlock(SHB, ShbBody(fileComment)), RawBlock(IDB, IdbBody(link)), rest);
  }

  lemma SectionSize(fileComment: bytes)
    requires |fileComment| < TWO_16
    ensures |ShbBody(fileComment)| <= 28 + |fileComment|
  {
  }

  /**
   The pcapng round trip. Every file the writer produces reads back as its file comment, link type and,
   in order, each packet's timestamp, bytes and comment; and the same blocks are found from the end.
   */
  lemma {:induction false} FileRoundTrip(frames: seq<Frame>, linkType: string, comments: seq<bytes>, fileComment: bytes)
    requires Writable(frames, linkType, comments, fileComment)
    ensures var link := LinkNumber(linkType).value;
            var blocks := FileBlocks(frames, link, comments, fileComment);
            && ReadFile(Serialize(blocks)) == Some(File(fileComment, link, Records(frames, comments, |frames|)))
            && ReadAll(Serialize(blocks)) == Some(blocks)
            && ReadBackwards(Serialize(blocks)) == Some(Reverse(blocks))
  {
    hide ReadAll;
    hide ReadBackwards;
    hide Serialize;
    hide ReadSection;
    hide ReadInterface;
    hide ReadPackets;
    hide PacketBlocks;
    hide AllPadded;
    hide AllFit;
    hide ShbBody;
    hide IdbBody;
    var link := LinkNumber(linkType).value;
    var blocks := FileBlocks(frames, link, comments, fileComment);
    FileBlocksRead(frames, linkType, comments, fileComment);
    ForwardRead(blocks);
    BackwardRead(blocks);
    SectionReads(fileComment);
    InterfaceReads(link);
    PacketBlocksRead(frames, comments, |frames|);
    assert blocks[2..] == PacketBlocks(frames, comments, |frames|);
  }

  // ---------------------------------------------------------------- the writing loop

  lemma SerializeSnoc(blocks: seq<RawBlock>, b: RawBlock)
    ensures Serialize(blocks + [b]) == Serialize(blocks) + Block(b.btype, b.body)
  {
    assert (blocks + [b])[..|blocks|] == blocks;
  }

  lemma SerializeTwo(a: RawBlock, b: RawBlock)
    ensures Serialize([a, b]) == Block(a.btype, a.body) + Block(b.btype, b.body)
  {
    hide Block;
    SerializeSnoc([], a);
    SerializeSnoc([a], b);
    assert [] + [a] == [a] && [a] + [b] == [a, b];
    assert [] + Block(a.btype, a.body) == Block(a.btype, a.body);
  }

  /** Writes the file, or refuses what `struct.pack` or the link-type lookup would refuse. */
  method WritePcapng(frames: seq<Frame>, linkType: string, comments: seq<bytes>, fileComment: bytes)
    returns (r: Result<bytes>)
    ensures r.Ok? <==> Writable(frames, linkType, comments, fileComment)
    ensures r.Ok? ==>
              ReadFile(r.value)
              == Some(File(fileComment, LinkNumber(linkType).value, Records(frames, comments, |frames|)))
    ensures r.Ok? ==> r.value == Serialize(FileBlocks(frames, LinkNumber(linkType).value, comments, fileComment))
  {
    hide Block;
    hide EpbBody;
    hide ShbBody;
    hide IdbBody;
    hide PacketFits;
    hide Serialize;
    hide Ticks;
    hide ReadFile;
    hide Records;
    hide LinkNumber;
    hide CommentAt;
    var lt := LinkNumber(linkType);
    if lt.None? {
      return Err("unsupported link_type");
    }
    if |fileComment| >= TWO_16 {
      return Err("comment too long");
    }
    var out := Block(SHB, ShbBody(fileComment)) + Block(IDB, IdbBody(lt.value));
    ghost var header := [RawBlock(SHB, ShbBody(fileComment)), RawBlock(IDB, IdbBody(lt.value))];
    SerializeTwo(header[0], header[1]);
    assert header + [] == header;
    for i := 0 to |frames|
      invariant forall j :: 0 <= j < i ==> PacketFits(frames[j], CommentAt(comments, j))
      invariant out == Serialize(header + PacketBlocks(frames, comments, i))
    {
      if !PacketFits(frames[i], CommentAt(comments, i)) {
        return Err("field out of range");
      }
      var body := EpbBody(Ticks(frames[i].time), frames[i].raw, CommentAt(comments, i));
      out := out + Block(EPB, body);
      ghost var before := header + PacketBlocks(frames, comments, i);
      SerializeSnoc(before, RawBlock(EPB, body));
      assert header + PacketBlocks(frames, comments, i + 1) == before + [RawBlock(EPB, body)];
    }
    FileRoundTrip(frames, linkType, comments, fileComment);
    r := Ok(out);
  }
}
