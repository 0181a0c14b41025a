/** `compile_flowset`: render every flow, rescale durations, interleave by a stable sort on time. */
module Timeline {
  import opened Numbers
  import opened Seqs
  import opened Bytes
  import opened Sorting
  import opened TcpModel
  import opened TcpMonitors
  import TcpBuilder

  /** A TCP flow is rendered by the conversation compiler; other renderers' packets are given. */
  datatype Flow =
    | TcpFlow(conn: Conn, msgs: seq<Message>, duration: Option<real>)
    | OtherFlow(pkts: seq<Packet>, duration: Option<real>)
    | UnknownKind(kind: string, duration: Option<real>)

  predicate Renderable(f: Flow) {
    match f
    case TcpFlow(conn, _, _) => conn.state.Supported()
    case OtherFlow(_, _) => true
    case UnknownKind(_, _) => false
  }

  function Render(f: Flow): seq<Packet> {
    match f
    case TcpFlow(conn, msgs, _) => Conversation(conn, msgs).pkts
    case OtherFlow(pkts, _) => pkts
    case UnknownKind(_, _) => []
  }

  // ---------------------------------------------------------------- duration rescale

  function MinTime(pkts: seq<Packet>): (t: real)
    requires pkts != []
    ensures forall i :: 0 <= i < |pkts| ==> t <= pkts[i].time
    ensures exists i :: 0 <= i < |pkts| && t == pkts[i].time
  {
    if |pkts| == 1 then pkts[0].time
    else
      var n := |pkts| - 1;
      assert forall i :: 0 <= i < n ==> pkts[..n][i] == pkts[i];
      MinReal(MinTime(pkts[..n]), pkts[n].time)
  }

  function MaxTime(pkts: seq<Packet>): (t: real)
    requires pkts != []
    ensures forall i :: 0 <= i < |pkts| ==> pkts[i].time <= t
    ensures exists i :: 0 <= i < |pkts| && t == pkts[i].time
  {
    if |pkts| == 1 then pkts[0].time
    else
      var n := |pkts| - 1;
      assert forall i :: 0 <= i < n ==> pkts[..n][i] == pkts[i];
      MaxReal(MaxTime(pkts[..n]), pkts[n].time)
  }

  function TimeSpan(pkts: seq<Packet>): real
    requires pkts != []
  {
    MaxTime(pkts) - MinTime(pkts)
  }

  function Scaled(x: real, scale: real): real {
    x * scale
  }

  function Moved(p: Packet, t0: real, scale: real): Packet {
    p.(time := t0 + Scaled(p.time - t0, scale))
  }

  function Stretch(pkts: seq<Packet>, t0: real, scale: real): seq<Packet> {
    seq(|pkts|, i requires 0 <= i < |pkts| => Moved(pkts[i], t0, scale))
  }

  /** The guard under which the source rewrites times. */
  predicate Stretches(pkts: seq<Packet>, duration: Option<real>) {
    duration.Some? && 2 <= |pkts| && TimeSpan(pkts) > 0.0
  }

  function Rescale(pkts: seq<Packet>, duration: Option<real>): seq<Packet> {
    if Stretches(pkts, duration)
    then Stretch(pkts, MinTime(pkts), duration.value / TimeSpan(pkts))
    else pkts
  }

  /** Rewrites the times of one flow's packets where they stand. */
  method RescaleInPlace(pkts: array<Packet>, duration: Option<real>)
    modifies pkts
    ensures pkts[..] == Rescale(old(pkts[..]), duration)
  {
    hide Moved;
    hide MinTime;
    hide MaxTime;
    if duration.Some? && 2 <= pkts.Length {
      var t0 := MinTime(pkts[..]);
      var span := MaxTime(pkts[..]) - t0;
      if span > 0.0 {
        var scale := duration.value / span;
        for i := 0 to pkts.Length
          invariant forall j :: 0 <= j < i ==> pkts[j] == Moved(old(pkts[j]), t0, scale)
          invariant forall j :: i <= j < pkts.Length ==> pkts[j] == old(pkts[j])
        {
          pkts[i] := Moved(pkts[i], t0, scale);
        }
      }
    }
  }

  // ---------------------------------------------------------------- merge

  function Emitted(f: Flow): seq<Packet> {
    Rescale(Render(f), f.duration)
  }

  function AllEmitted(flows: seq<Flow>): seq<Packet> {
    if flows == [] then [] else Emitted(flows[0]) + AllEmitted(flows[1..])
  }

  const TIME: Packet -> real := (p: Packet) => p.time

  function Capture(flows: seq<Flow>): seq<Packet> {
    StableSort(AllEmitted(flows), TIME)
  }

  lemma {:induction false} AllEmittedConcat(a: seq<Flow>, b: seq<Flow>)
    ensures AllEmitted(a + b) == AllEmitted(a) + AllEmitted(b)
  {
    hide Emitted;
    if a == [] {
      assert a + b == b;
    } else {
      assert (a + b)[1..] == a[1..] + b;
      AllEmittedConcat(a[1..], b);
    }
  }

  method RenderFlow(f: Flow) returns (r: Result<seq<Packet>>)
    ensures r.Ok? <==> Renderable(f)
    ensures r.Ok? ==> r.value == Render(f)
  {
    match f
    case UnknownKind(_, _) =>
      r := Err("no renderer registered");
    case OtherFlow(pkts, _) =>
      r := Ok(pkts);
    case TcpFlow(conn, msgs, _) =>
      var built := TcpBuilder.BuildTcpFlow(conn, msgs);
      r := if built.Ok? then Ok(built.value.packets) else Err(built.message);
  }

  /** Renders flow by flow, appends to one list and sorts it; refuses what no renderer handles. */
  method CompileFlowset(flows: seq<Flow>) returns (r: Result<seq<Packet>>)
    ensures r.Ok? <==> forall f :: f in flows ==> Renderable(f)
    ensures r.Ok? ==> r.value == Capture(flows)
  {
    hide Renderable;
    hide Render;
    hide Rescale;
    var packets: seq<Packet> := [];
    for i := 0 to |flows|
      invariant forall j :: 0 <= j < i ==> Renderable(flows[j])
      invariant packets == AllEmitted(flows[..i])
    {
      var rendered := RenderFlow(flows[i]);
      if rendered.Err? {
        return Err(rendered.message);
      }
      var pkts := rendered.value;
      var a := new Packet[|pkts|](k requires 0 <= k < |pkts| => pkts[k]);
      assert a[..] == pkts;
      RescaleInPlace(a, flows[i].duration);
      packets := packets + a[..];
      assert flows[..i + 1] == flows[..i] + [flows[i]];
      AllEmittedConcat(flows[..i], [flows[i]]);
      assert AllEmitted([flows[i]]) == Emitted(flows[i]) + [];
    }
    assert flows[..|flows|] == flows;
    r := Ok(StableSort(packets, TIME));
  }
}
