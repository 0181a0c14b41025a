/** TLS record framing, the messages `render_tls` hands to the conversation compiler, and their reader. */
module Tls {
  import opened Numbers
  import opened Seqs
  import opened Bytes
  import opened Segmentation
  import opened TcpModel
  import opened TcpMonitors
  import T = TcpTheorems
  import opened Timeline
  import TT = TimelineTheorems

  const MAX_REC: int := 16384
  const LEGACY: int := 0x0303
  const APP_DATA: byte := 23

  /** One record as a reader sees it. */
  datatype TlsRecord = TlsRecord(rtype: byte, version: nat, body: bytes)

  // ---------------------------------------------------------------- printer

  /** The header is written byte by byte, each masked to eight bits. */
  function OpaqueRecord(rtype: byte, version: int, payload: bytes): (r: bytes)
    ensures |r| == 5 + |payload|
  {
    [rtype, Octet(version / 256), Octet(version), Octet(|payload| / 256), Octet(|payload|)] + payload
  }

  function PrintChunks(rtype: byte, version: int, chunks: seq<bytes>): bytes {
    if chunks == [] then []
    else OpaqueRecord(rtype, version, chunks[0]) + PrintChunks(rtype, version, chunks[1..])
  }

  /** Bulk data in records of at most 2^14 bytes; no data at all is one empty record. */
  function OpaqueRecords(rtype: byte, version: int, payload: bytes): bytes {
    if |payload| <= MAX_REC then OpaqueRecord(rtype, version, payload)
    else PrintChunks(rtype, version, Chop(payload, MAX_REC))
  }

  // ---------------------------------------------------------------- reader

  datatype Cut = Cut(record: TlsRecord, size: nat)

  function ReadRecord(b: bytes): (r: Option<Cut>)
    ensures r.Some? ==> 5 <= r.value.size <= |b|
  {
    if |b| < 5 then None
    else
      var n := 256 * b[3] as int + b[4] as int;
      if 5 + n > |b| then None
      else Some(Cut(TlsRecord(b[0], 256 * b[1] as int + b[2] as int, b[5..5 + n]), 5 + n))
  }

  function ReadRecords(b: bytes): Option<seq<TlsRecord>>
    decreases |b|
  {
    if b == [] then Some([])
    else
      match ReadRecord(b)
      case None => None
      case Some(cut) =>
        match ReadRecords(b[cut.size..])
        case None => None
        case Some(rest) => Some([cut.record] + rest)
  }

  lemma RecordReads(rtype: byte, version: int, payload: bytes, after: bytes)
    requires |payload| < TWO_16 && 0 <= version < TWO_16
    ensures ReadRecord(OpaqueRecord(rtype, version, payload) + after)
         == Some(Cut(TlsRecord(rtype, version, payload), 5 + |payload|))
  {
    var w := OpaqueRecord(rtype, version, payload) + after;
    assert w[5..5 + |payload|] == payload;
  }

  lemma OneRecord(rtype: byte, version: int, payload: bytes, after: bytes)
    requires |payload| < TWO_16 && 0 <= version < TWO_16
    ensures var w := OpaqueRecord(rtype, version, payload) + after;
            ReadRecords(w) == match ReadRecords(after)
                              case None => None
                              case Some(rest) => Some([TlsRecord(rtype, version, payload)] + rest)
  {
    hide OpaqueRecord;
    hide ReadRecord;
    var w := OpaqueRecord(rtype, version, payload) + after;
    RecordReads(rtype, version, payload, after);
    assert w[5 + |payload|..] == after;
  }

  /** A single record is readable exactly when its length fits the 16-bit field it is masked into. */
  lemma RecordLengthLimit(rtype: byte, version: int, payload: bytes)
    requires 0 <= version < TWO_16
    ensures ReadRecords(OpaqueRecord(rtype, version, payload)) == Some([TlsRecord(rtype, version, payload)])
            <==> |payload| < TWO_16
  {
    var w := OpaqueRecord(rtype, version, payload);
    if |payload| < TWO_16 {
      OneRecord(rtype, version, payload, []);
      assert w + [] == w;
      assert [TlsRecord(rtype, version, payload)] + [] == [TlsRecord(rtype, version, payload)];
    } else {
      assert ReadRecord(w).Some? ==> |ReadRecord(w).value.record.body| < TWO_16;
    }
  }

  function ToRecords(rtype: byte, version: nat, chunks: seq<bytes>): (r: seq<TlsRecord>)
    ensures |r| == |chunks|
    ensures forall i :: 0 <= i < |chunks| ==> r[i] == TlsRecord(rtype, version, chunks[i])
  {
    seq(|chunks|, i requires 0 <= i < |chunks| => TlsRecord(rtype, version, chunks[i]))
  }

  lemma {:induction false} ChunksRead(rtype: byte, version: nat, chunks: seq<bytes>)
    requires version < TWO_16 && forall i :: 0 <= i < |chunks| ==> |chunks[i]| < TWO_16
    ensures ReadRecords(PrintChunks(rtype, version, chunks)) == Some(ToRecords(rtype, version, chunks))
  {
    hide OpaqueRecord;
    if chunks == [] {
      assert ToRecords(rtype, version, chunks) == [];
    } else {
      ChunksRead(rtype, version, chunks[1..]);
      OneRecord(rtype, version, chunks[0], PrintChunks(rtype, version, chunks[1..]));
      assert ToRecords(rtype, version, chunks)
          == [TlsRecord(rtype, version, chunks[0])] + ToRecords(rtype, version, chunks[1..]);
    }
  }

  function Bodies(records: seq<TlsRecord>): seq<bytes> {
    seq(|records|, i requires 0 <= i < |records| => records[i].body)
  }

  /** What bulk data becomes: the chunks of at most 2^14 bytes, or one empty one. */
  function Fragments(payload: bytes): seq<bytes> {
    if |payload| <= MAX_REC then [payload] else Chop(payload, MAX_REC)
  }

  /** The framing contract: readable, within the record limit, and the bodies concatenate to the data. */
  lemma FragmentsRead(rtype: byte, version: nat, payload: bytes)
    requires version < TWO_16
    ensures var records := ToRecords(rtype, version, Fragments(payload));
            && ReadRecords(OpaqueRecords(rtype, version, payload)) == Some(records)
            && Flatten(Bodies(records)) == payload
            && (forall i :: 0 <= i < |records| ==> |records[i].body| <= MAX_REC)
            && |records| == Max(1, CeilDiv(|payload|, MAX_REC))
  {
    hide OpaqueRecord;
    hide ReadRecords;
    hide Chop;
    hide Flatten;
    var chunks := Fragments(payload);
    ChopPieces(payload, MAX_REC);
    FlattenOne(payload);
    ChunksRead(rtype, version, chunks);
    if |payload| <= MAX_REC {
      assert [payload][1..] == [];
      assert PrintChunks(rtype, version, [payload]) == OpaqueRecord(rtype, version, payload) + [];
      assert OpaqueRecord(rtype, version, payload) + [] == OpaqueRecord(rtype, version, payload);
    }
    assert Bodies(ToRecords(rtype, version, chunks)) == chunks;
  }

  lemma ReadRecordPrefix(a: bytes, b: bytes)
    requires ReadRecord(a).Some?
    ensures ReadRecord(a + b) == ReadRecord(a)
  {
    var n := 256 * a[3] as int + a[4] as int;
    assert (a + b)[5..5 + n] == a[5..5 + n];
  }

  lemma {:induction false} ReadConcat(a: bytes, b: bytes)
    requires ReadRecords(a).Some?
    ensures ReadRecords(a + b) == match ReadRecords(b)
                                  case None => None
                                  case Some(rest) => Some(ReadRecords(a).value + rest)
    decreases |a|
  {
    hide ReadRecord;
    if a == [] {
      assert a + b == b;
      assert ReadRecords(b).Some? ==> [] + ReadRecords(b).value == ReadRecords(b).value;
    } else {
      var cut := ReadRecord(a).value;
      ReadRecordPrefix(a, b);
      ReadConcat(a[cut.size..], b);
      assert (a + b)[cut.size..] == a[cut.size..] + b;
      if ReadRecords(b).Some? {
        Prepend(cut.record, ReadRecords(a[cut.size..]).value, ReadRecords(b).value);
      }
    }
  }

  lemma Prepend(x: TlsRecord, a: seq<TlsRecord>, b: seq<TlsRecord>)
    ensures [x] + (a + b) == ([x] + a) + b
  {
  }

  // ---------------------------------------------------------------- the renderer's messages

  /** The handshake records each version sends, in order; their bodies are whatever scapy built. */
  datatype Flights =
    | V12(ch: TlsRecord, sh: TlsRecord, cert: TlsRecord, ske: TlsRecord, shd: TlsRecord,
          cke: TlsRecord, ccs: TlsRecord, finC: TlsRecord, finS: TlsRecord)
    | V13(ch: TlsRecord, sh: TlsRecord, ccs: TlsRecord, encHs: TlsRecord, finC: TlsRecord)

  predicate WellFormed(r: TlsRecord) {
    r.version < TWO_16 && |r.body| < TWO_16
  }

  /** One handshake message: consecutive records from one side. */
  datatype Turn = Turn(fromOrig: bool, records: seq<TlsRecord>)

  function Turns(f: Flights): seq<Turn> {
    match f
    case V12(ch, sh, cert, ske, shd, cke, ccs, finC, finS) =>
      [Turn(true, [ch]), Turn(false, [sh, cert, ske, shd]), Turn(true, [cke, ccs, finC]), Turn(false, [ccs, finS])]
    case V13(ch, sh, ccs, encHs, finC) =>
      [Turn(true, [ch]), Turn(false, [sh, ccs, encHs]), Turn(true, [ccs, finC])]
  }

  /** One direction's handshake records. */
  function Hello(turns: seq<Turn>, d: bool): seq<TlsRecord> {
    if turns == [] then []
    else (if turns[0].fromOrig == d then turns[0].records else []) + Hello(turns[1..], d)
  }

  function PrintAll(records: seq<TlsRecord>): bytes {
    if records == [] then []
    else OpaqueRecord(records[0].rtype, records[0].version, records[0].body) + PrintAll(records[1..])
  }

  function HelloMessages(turns: seq<Turn>): seq<Message> {
    if turns == [] then [] else [Message(turns[0].fromOrig, PrintAll(turns[0].records))] + HelloMessages(turns[1..])
  }

  function AppMessage(d: bool, app: bytes): seq<Message> {
    if app == [] then [] else [Message(d, OpaqueRecords(APP_DATA, LEGACY, app))]
  }

  /** Handshake messages in turn, then each side's application data where there is any. */
  function TlsMessages(f: Flights, appOrig: bytes, appResp: bytes): seq<Message> {
    HelloMessages(Turns(f)) + AppMessage(true, appOrig) + AppMessage(false, appResp)
  }

  method RenderMessages(f: Flights, appOrig: bytes, appResp: bytes) returns (messages: seq<Message>)
    ensures messages == TlsMessages(f, appOrig, appResp)
    ensures forall d :: T.Payloads(messages, d)
                     == PrintAll(Hello(Turns(f), d)) + AppBytes(if d then appOrig else appResp)
  {
    messages := HelloMessages(Turns(f));
    if appOrig != [] {
      messages := messages + [Message(true, OpaqueRecords(APP_DATA, LEGACY, appOrig))];
    }
    if appResp != [] {
      messages := messages + [Message(false, OpaqueRecords(APP_DATA, LEGACY, appResp))];
    }
    assert messages == TlsMessages(f, appOrig, appResp);
    TlsPayloads(f, appOrig, appResp, true);
    TlsPayloads(f, appOrig, appResp, false);
  }

  /** One direction's stream: its handshake records, then its data. */
  lemma TlsPayloads(f: Flights, appOrig: bytes, appResp: bytes, d: bool)
    ensures T.Payloads(TlsMessages(f, appOrig, appResp), d)
         == PrintAll(Hello(Turns(f), d)) + AppBytes(if d then appOrig else appResp)
  {
    hide PrintAll;
    hide OpaqueRecords;
    hide HelloMessages;
    hide Turns;
    var hello := HelloMessages(Turns(f));
    HelloPayloads(Turns(f), d);
    PayloadsConcat(hello + AppMessage(true, appOrig), AppMessage(false, appResp), d);
    PayloadsConcat(hello, AppMessage(true, appOrig), d);
    PayloadsOne(Message(true, OpaqueRecords(APP_DATA, LEGACY, appOrig)), d);
    PayloadsOne(Message(false, OpaqueRecords(APP_DATA, LEGACY, appResp)), d);
    var x := PrintAll(Hello(Turns(f), d));
    assert x + [] == x;
  }

  lemma {:induction false} PrintAllConcat(a: seq<TlsRecord>, b: seq<TlsRecord>)
    ensures PrintAll(a + b) == PrintAll(a) + PrintAll(b)
  {
    hide OpaqueRecord;
    if a == [] {
      assert a + b == b;
    } else {
      assert (a + b)[1..] == a[1..] + b;
      PrintAllConcat(a[1..], b);
    }
  }

  lemma {:induction false} HelloPayloads(turns: seq<Turn>, d: bool)
    ensures T.Payloads(HelloMessages(turns), d) == PrintAll(Hello(turns, d))
  {
    if turns != [] {
      HelloPayloads(turns[1..], d);
      assert HelloMessages(turns)[1..] == HelloMessages(turns[1..]);
      PrintAllConcat(if turns[0].fromOrig == d then turns[0].records else [], Hello(turns[1..], d));
    }
  }

  /** What application data of one direction adds to its stream. */
  function AppBytes(app: bytes): bytes {
    if app == [] then [] else OpaqueRecords(APP_DATA, LEGACY, app)
  }

  lemma {:induction false} PayloadsConcat(a: seq<Message>, b: seq<Message>, d: bool)
    ensures T.Payloads(a + b, d) == T.Payloads(a, d) + T.Payloads(b, d)
  {
    if a == [] {
      assert a + b == b;
    } else {
      assert (a + b)[1..] == a[1..] + b;
      PayloadsConcat(a[1..], b, d);
    }
  }

  lemma PayloadsOne(m: Message, d: bool)
    ensures T.Payloads([m], d) == if m.fromOrig == d then m.payload else []
  {
    assert T.Payloads([m], d) == (if m.fromOrig == d then m.payload else []) + T.Payloads([], d);
  }

  // ---------------------------------------------------------------- reading the stream back

  lemma {:induction false} PrintAllRead(records: seq<TlsRecord>)
    requires forall i :: 0 <= i < |records| ==> WellFormed(records[i])
    ensures ReadRecords(PrintAll(records)) == Some(records)
  {
    hide OpaqueRecord;
    if records != [] {
      PrintAllRead(records[1..]);
      OneRecord(records[0].rtype, records[0].version, records[0].body, PrintAll(records[1..]));
      assert records == [records[0]] + records[1..];
    }
  }

  /** The application-data records of one direction. */
  function AppRecords(app: bytes): seq<TlsRecord> {
    if app == [] then [] else ToRecords(APP_DATA, LEGACY, Fragments(app))
  }

  lemma AppBytesRead(app: bytes)
    ensures ReadRecords(AppBytes(app)) == Some(AppRecords(app))
    ensures Flatten(Bodies(AppRecords(app))) == app
    ensures forall i :: 0 <= i < |AppRecords(app)| ==> |AppRecords(app)[i].body| <= MAX_REC
  {
    hide OpaqueRecords;
    hide Fragments;
    FragmentsRead(APP_DATA, LEGACY, app);
  }

  ghost predicate HandshakeWellFormed(turns: seq<Turn>, d: bool) {
    forall i :: 0 <= i < |Hello(turns, d)| ==> WellFormed(Hello(turns, d)[i])
  }

  /** One direction's stream is its handshake records followed by its data, each within the record limit. */
  lemma StreamReads(turns: seq<Turn>, d: bool, app: bytes)
    requires HandshakeWellFormed(turns, d)
    ensures ReadRecords(PrintAll(Hello(turns, d)) + AppBytes(app)) == Some(Hello(turns, d) + AppRecords(app))
  {
    PrintAllRead(Hello(turns, d));
    AppBytesRead(app);
    ReadConcat(PrintAll(Hello(turns, d)), AppBytes(app));
  }

  /** The bodies of the application-data records, joined. */
  function AppData(records: seq<TlsRecord>): bytes {
    if records == [] then []
    else (if records[0].rtype == APP_DATA then records[0].body else []) + AppData(records[1..])
  }

  lemma {:induction false} AppDataConcat(a: seq<TlsRecord>, b: seq<TlsRecord>)
    ensures AppData(a + b) == AppData(a) + AppData(b)
  {
    if a == [] {
      assert a + b == b;
    } else {
      assert (a + b)[1..] == a[1..] + b;
      AppDataConcat(a[1..], b);
    }
  }

  lemma {:induction false} AppDataOf(records: seq<TlsRecord>)
    ensures (forall i :: 0 <= i < |records| ==> records[i].rtype == APP_DATA) ==>
      AppData(records) == Flatten(Bodies(records))
    ensures (forall i :: 0 <= i < |records| ==> records[i].rtype != APP_DATA) ==> AppData(records) == []
  {
    if records != [] {
      AppDataOf(records[1..]);
      assert Bodies(records)[1..] == Bodies(records[1..]);
    }
  }

  /**
   Layered framing. Application data of any size, cut into records, carried behind the handshake,
   segmented, retransmitted and acknowledged by TCP, interleaved with other flows and rescaled, is read
   back record for record from the merged capture. Where no handshake record is of the data type
   (TLS 1.2), the data records alone yield exactly the original bytes.
   */
  lemma LayeredFraming(flows: seq<Flow>, i: nat, f: Flights, appOrig: bytes, appResp: bytes, d: bool)
    requires TT.Mergeable(flows, i) && flows[i].conn.state.Established() && flows[i].conn.SegSize() > 0
    requires flows[i].msgs == TlsMessages(f, appOrig, appResp)
    requires HandshakeWellFormed(Turns(f), d)
    ensures var c, app := flows[i].conn, if d then appOrig else appResp;
            var stream := Received(c.End(d), TT.Select(c, Capture(flows))).data;
            && ReadRecords(stream) == Some(Hello(Turns(f), d) + AppRecords(app))
            && Flatten(Bodies(AppRecords(app))) == app
            && (forall k :: 0 <= k < |AppRecords(app)| ==> |AppRecords(app)[k].body| <= MAX_REC)
            && ((forall k :: 0 <= k < |Hello(Turns(f), d)| ==> Hello(Turns(f), d)[k].rtype != APP_DATA) ==>
                  AppData(ReadRecords(stream).value) == app)
  {
    hide TlsMessages;
    hide TT.Mergeable;
    hide Received;
    hide TT.Select;
    hide Capture;
    hide PrintAll;
    hide Hello;
    hide AppBytes;
    hide ReadRecords;
    hide AppData;
    var app := if d then appOrig else appResp;
    TT.StreamSurvivesMerge(flows, i, d);
    TlsPayloads(f, appOrig, appResp, d);
    StreamReads(Turns(f), d, app);
    AppBytesRead(app);
    AppDataConcat(Hello(Turns(f), d), AppRecords(app));
    AppDataOf(Hello(Turns(f), d));
    AppDataOf(AppRecords(app));
    assert [] + app == app;
  }
}
