/** SSH binary packets, the KEXINIT name-lists, and a reader for one side's whole stream. */
module Ssh {
  import opened Seqs
  import opened Bytes
  import opened TcpModel
  import opened TcpMonitors
  import T = TcpTheorems
  import opened Timeline
  import TT = TimelineTheorems

  const LF: byte := 10
  const CR: byte := 13

  // ---------------------------------------------------------------- packets

  /** Section 6 of RFC 4253 asks for at least four bytes of padding, to a multiple of eight. */
  function PadLength(n: nat): (r: nat)
    ensures 4 <= r <= 11 && (5 + n + r) % 8 == 0
  {
    var pad := 8 - (5 + n) % 8;
    if pad < 4 then pad + 8 else pad
  }

  /** `_ssh_packet`; `fill` is the random padding. */
  function SshPacket(payload: bytes, fill: nat -> byte): (r: bytes)
    ensures |r| == 5 + |payload| + PadLength(|payload|) && |r| % 8 == 0
  {
    var pad := PadLength(|payload|);
    Be32(1 + |payload| + pad) + [pad] + payload + seq(pad, i requires 0 <= i < pad => fill(i))
  }

  /** `to_bytes(4)` overflows otherwise. */
  predicate Packable(payload: bytes) {
    1 + |payload| + PadLength(|payload|) < TWO_32
  }

  datatype Cut = Cut(payload: bytes, size: nat)

  /** One packet at the front, with the padding rules of RFC 4253 enforced. */
  function ReadPacket(b: bytes): (r: Option<Cut>)
    ensures r.Some? ==> 5 <= r.value.size <= |b|
  {
    if |b| < 5 then None
    else
      var n := Big32At(b, 0);
      var pad := b[4] as int;
      if 4 + n > |b| || (4 + n) % 8 != 0 || pad < 4 || n < 1 + pad then None
      else Some(Cut(b[5..4 + n - pad], 4 + n))
  }

  function ReadPackets(b: bytes): Option<seq<bytes>>
    decreases |b|
  {
    if b == [] then Some([])
    else
      match ReadPacket(b)
      case None => None
      case Some(cut) =>
        match ReadPackets(b[cut.size..])
        case None => None
        case Some(rest) => Some([cut.payload] + rest)
  }

  function Packets(payloads: seq<bytes>, fills: nat -> nat -> byte): bytes {
    if payloads == [] then []
    else SshPacket(payloads[0], fills(|payloads|)) + Packets(payloads[1..], fills)
  }

  lemma {:induction false} PacketReads(payload: bytes, fill: nat -> byte, after: bytes)
    requires Packable(payload)
    ensures ReadPacket(SshPacket(payload, fill) + after) == Some(Cut(payload, |SshPacket(payload, fill)|))
  {
    hide Be32;
    hide Big32At;
    hide PadLength;
    var pad := PadLength(|payload|);
    var n := 1 + |payload| + pad;
    var padding := seq(pad, i requires 0 <= i < pad => fill(i));
    var w := SshPacket(payload, fill) + after;
    assert w == [] + Be32(n) + ([pad] + payload + padding + after);
    Be32Reads([], n, [pad] + payload + padding + after);
    assert w[4] == pad;
    assert w[5..5 + |payload|] == payload;
  }

  /** A stream of packets reads back as exactly its payloads, whatever the padding bytes. */
  lemma {:induction false} PacketsRead(payloads: seq<bytes>, fills: nat -> nat -> byte)
    requires forall i :: 0 <= i < |payloads| ==> Packable(payloads[i])
    ensures ReadPackets(Packets(payloads, fills)) == Some(payloads)
  {
    hide SshPacket;
    hide ReadPacket;
    if payloads != [] {
      var first := SshPacket(payloads[0], fills(|payloads|));
      var rest := Packets(payloads[1..], fills);
      PacketsRead(payloads[1..], fills);
      PacketReads(payloads[0], fills(|payloads|), rest);
      assert (first + rest)[|first|..] == rest;
      assert payloads == [payloads[0]] + payloads[1..];
    }
  }

  // ---------------------------------------------------------------- KEXINIT

  const SSH_MSG_KEXINIT: byte := 20
  const SSH_MSG_NEWKEYS: byte := 21

  function NameList(name: bytes): (r: bytes)
    ensures |r| == 4 + |name|
  {
    Be32(|name|) + name
  }

  function NameLists(names: seq<bytes>): bytes {
    if names == [] then [] else NameLists(names[..|names| - 1]) + NameList(names[|names| - 1])
  }

  /** Message number, cookie, the ten lists, first_kex_packet_follows and the reserved word. */
  function Kexinit(cookie: bytes, names: seq<bytes>): bytes {
    [SSH_MSG_KEXINIT] + cookie + NameLists(names) + ([0] + Be32(0))
  }

  method RenderKexinit(cookie: bytes, names: seq<bytes>) returns (payload: bytes)
    ensures payload == Kexinit(cookie, names)
  {
    payload := [SSH_MSG_KEXINIT] + cookie;
    for i := 0 to |names|
      invariant payload == [SSH_MSG_KEXINIT] + cookie + NameLists(names[..i])
    {
      assert names[..i + 1][..i] == names[..i];
      payload := payload + NameList(names[i]);
    }
    assert names[..|names|] == names;
    payload := payload + ([0] + Be32(0));
  }

  datatype Names = Names(lists: seq<bytes>, rest: bytes)

  /** `n` length-prefixed lists from the front. */
  function ReadNames(b: bytes, n: nat): Option<Names> {
    if n == 0 then Some(Names([], b))
    else if |b| < 4 || 4 + Big32At(b, 0) > |b| then None
    else
      var len := Big32At(b, 0);
      match ReadNames(b[4 + len..], n - 1)
      case None => None
      case Some(more) => Some(Names([b[4..4 + len]] + more.lists, more.rest))
  }

  /** The ten lists of section 7.1 of RFC 4253, with the trailer checked. */
  function ReadKexinit(b: bytes): Option<seq<bytes>> {
    if |b| < 17 || b[0] != SSH_MSG_KEXINIT then None
    else
      match ReadNames(b[17..], 10)
      case None => None
      case Some(names) => if names.rest == [0, 0, 0, 0, 0] then Some(names.lists) else None
  }

  lemma {:induction false} NameListsFirst(names: seq<bytes>)
    requires names != []
    ensures NameLists(names) == NameList(names[0]) + NameLists(names[1..])
  {
    hide NameList;
    var n := |names| - 1;
    if n == 0 {
      assert names[..0] == [] && names[1..] == [];
      assert NameLists(names) == [] + NameList(names[0]) && NameList(names[0]) + [] == NameList(names[0]);
    } else {
      NameListsFirst(names[..n]);
      assert names[1..][..n - 1] == names[..n][1..];
      assert NameLists(names[1..]) == NameLists(names[..n][1..]) + NameList(names[n]);
    }
  }

  lemma {:induction false} NamesRead(names: seq<bytes>, after: bytes)
    requires forall i :: 0 <= i < |names| ==> |names[i]| < TWO_32
    ensures ReadNames(NameLists(names) + after, |names|) == Some(Names(names, after))
  {
    hide Be32;
    hide Big32At;
    hide NameLists;
    if names == [] {
      NoNames(after);
    } else {
      NameListsFirst(names);
      var rest := NameLists(names[1..]) + after;
      var w := NameLists(names) + after;
      NamesRead(names[1..], after);
      assert w == [] + Be32(|names[0]|) + (names[0] + rest);
      Be32Reads([], |names[0]|, names[0] + rest);
      assert w[4..4 + |names[0]|] == names[0];
      assert w[4 + |names[0]|..] == rest;
      assert names == [names[0]] + names[1..];
    }
  }

  lemma NoNames(after: bytes)
    ensures NameLists([]) + after == after
  {
  }

  /** The KEXINIT payload parses back to its ten lists, whatever the cookie. */
  lemma KexinitReads(cookie: bytes, names: seq<bytes>)
    requires |cookie| == 16 && |names| == 10 && forall i :: 0 <= i < 10 ==> |names[i]| < TWO_32
    ensures ReadKexinit(Kexinit(cookie, names)) == Some(names)
  {
    var tail: bytes := [0, 0, 0, 0, 0];
    hide NameLists;
    hide ReadNames;
    assert [0] + Be32(0) == tail;
    NamesRead(names, tail);
    var w := Kexinit(cookie, names);
    assert w[17..] == NameLists(names) + tail;
  }

  // ---------------------------------------------------------------- one side of the conversation

  /** A side's whole stream: the banner line, then its packets. */
  function SideStream(banner: bytes, payloads: seq<bytes>, fills: nat -> nat -> byte): bytes {
    banner + [CR, LF] + Packets(payloads, fills)
  }

  datatype Side = Side(banner: bytes, payloads: seq<bytes>)

  function FirstLf(b: bytes): (k: nat)
    ensures k <= |b| && (k < |b| ==> b[k] == LF) && forall i :: 0 <= i < k ==> b[i] != LF
  {
    if b == [] || b[0] == LF then 0 else 1 + FirstLf(b[1..])
  }

  /** The banner is the first line without its CR LF; packets follow. */
  function ReadSide(b: bytes): Option<Side> {
    var k := FirstLf(b);
    if k == |b| || k == 0 || b[k - 1] != CR then None
    else
      match ReadPackets(b[k + 1..])
      case None => None
      case Some(payloads) => Some(Side(b[..k - 1], payloads))
  }

  /** A side's stream reads back exactly when its version string holds no line feed. */
  lemma SideReads(banner: bytes, payloads: seq<bytes>, fills: nat -> nat -> byte)
    requires forall i :: 0 <= i < |payloads| ==> Packable(payloads[i])
    ensures ReadSide(SideStream(banner, payloads, fills)) == Some(Side(banner, payloads)) <==> LF !in banner
  {
    hide ReadPackets;
    hide Packets;
    var packets := Packets(payloads, fills);
    var b := SideStream(banner, payloads, fills);
    var k := FirstLf(b);
    assert b[|banner|] == CR && b[|banner| + 1] == LF;
    if LF !in banner {
      assert forall i :: 0 <= i < |banner| ==> b[i] == banner[i];
      assert k == |banner| + 1;
      assert b[..k - 1] == banner && b[k + 1..] == packets;
      PacketsRead(payloads, fills);
    } else {
      var j :| 0 <= j < |banner| && banner[j] == LF;
      assert b[j] == LF;
      assert k <= j;
    }
  }

  datatype Party = Party(banner: bytes, cookie: bytes, opaquePayload: bytes, fills: nat -> nat -> byte)

  function Payloads(side: Party, names: seq<bytes>): seq<bytes> {
    [Kexinit(side.cookie, names), [SSH_MSG_NEWKEYS], side.opaquePayload]
  }

  /** The renderer's eight messages, alternating between the sides. */
  function SshMessages(o: Party, r: Party, names: seq<bytes>): seq<Message> {
    [Message(true, o.banner + [CR, LF]), Message(false, r.banner + [CR, LF]),
     Message(true, SshPacket(Payloads(o, names)[0], o.fills(3))),
     Message(false, SshPacket(Payloads(r, names)[0], r.fills(3))),
     Message(true, SshPacket(Payloads(o, names)[1], o.fills(2))),
     Message(false, SshPacket(Payloads(r, names)[1], r.fills(2))),
     Message(true, SshPacket(Payloads(o, names)[2], o.fills(1))),
     Message(false, SshPacket(Payloads(r, names)[2], r.fills(1)))]
  }

  /** Two messages at a time. */
  lemma PayloadsPair(a: bytes, b: bytes, rest: seq<Message>, d: bool)
    ensures T.Payloads([Message(true, a), Message(false, b)] + rest, d) == (if d then a else b) + T.Payloads(rest, d)
  {
    var all := [Message(true, a), Message(false, b)] + rest;
    assert all[1..] == [Message(false, b)] + rest && all[1..][1..] == rest;
  }

  lemma {:induction false} PacketsThree(payloads: seq<bytes>, fills: nat -> nat -> byte)
    requires |payloads| == 3
    ensures Packets(payloads, fills)
         == SshPacket(payloads[0], fills(3))
            + (SshPacket(payloads[1], fills(2)) + (SshPacket(payloads[2], fills(1)) + []))
  {
    hide SshPacket;
    assert Packets(payloads[1..][1..][1..], fills) == [];
    assert Packets(payloads[1..][1..], fills) == SshPacket(payloads[2], fills(1)) + [];
    assert Packets(payloads[1..], fills) == SshPacket(payloads[1], fills(2)) + Packets(payloads[1..][1..], fills);
  }

  lemma SshPayloads(o: Party, r: Party, names: seq<bytes>, d: bool)
    ensures var me := if d then o else r;
            T.Payloads(SshMessages(o, r, names), d) == SideStream(me.banner, Payloads(me, names), me.fills)
  {
    hide SshPacket;
    hide Packets;
    hide T.Payloads;
    hide Kexinit;
    var po, pr := Payloads(o, names), Payloads(r, names);
    var m := SshMessages(o, r, names);
    assert m == [m[0], m[1]] + ([m[2], m[3]] + ([m[4], m[5]] + ([m[6], m[7]] + [])));
    PayloadsPair(m[0].payload, m[1].payload, [m[2], m[3]] + ([m[4], m[5]] + ([m[6], m[7]] + [])), d);
    PayloadsPair(m[2].payload, m[3].payload, [m[4], m[5]] + ([m[6], m[7]] + []), d);
    PayloadsPair(m[4].payload, m[5].payload, [m[6], m[7]] + [], d);
    PayloadsPair(m[6].payload, m[7].payload, [], d);
    NoPayloads(d);
    PacketsThree(po, o.fills);
    PacketsThree(pr, r.fills);
  }

  lemma NoPayloads(d: bool)
    ensures T.Payloads([], d) == []
  {
  }

  /**
   Through TCP and the merge. From the merged capture each side's stream yields its banner and its
   three packet payloads exactly when the banner holds no line feed.
   */
  lemma {:induction false} SshSurvivesMerge(flows: seq<Flow>, i: nat, o: Party, r: Party, names: seq<bytes>, d: bool)
    requires TT.Mergeable(flows, i) && flows[i].conn.state.Established() && flows[i].conn.SegSize() > 0
    requires flows[i].msgs == SshMessages(o, r, names)
    requires var me := if d then o else r;
             forall k :: 0 <= k < 3 ==> Packable(Payloads(me, names)[k])
    ensures var me := if d then o else r;
            var stream := Received(flows[i].conn.End(d), TT.Select(flows[i].conn, Capture(flows))).data;
            ReadSide(stream) == Some(Side(me.banner, Payloads(me, names))) <==> LF !in me.banner
  {
    var me := if d then o else r;
    TT.StreamSurvivesMerge(flows, i, d);
    SshPayloads(o, r, names, d);
    hide SshMessages;
    hide Received;
    hide TT.Select;
    hide Capture;
    hide TT.Mergeable;
    hide SideStream;
    hide ReadSide;
    hide Kexinit;
    SideReads(me.banner, Payloads(me, names), me.fills);
  }
}
