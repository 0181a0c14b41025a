/** What the merge and the rescale preserve. */
module TimelineTheorems {
  import opened Numbers
  import opened Seqs
  import opened Bytes
  import opened Sorting
  import opened TcpModel
  import opened TcpMonitors
  import opened TcpProofs
  import opened Timeline
  import T = TcpTheorems

  // ---------------------------------------------------------------- rescale

  /** The same packets, except perhaps for their times. */
  ghost predicate SameWire(a: seq<Packet>, b: seq<Packet>) {
    |a| == |b| && forall i :: 0 <= i < |a| ==> b[i] == a[i].(time := b[i].time)
  }

  lemma {:induction false} ReadersIgnoreTime(a: seq<Packet>, b: seq<Packet>, src: Addr)
    requires SameWire(a, b)
    ensures Received(src, a) == Received(src, b)
    ensures Observed(a) == Observed(b)
    ensures Audited(src, a) == Audited(src, b)
    ensures Echoed(src, a) == Echoed(src, b)
  {
    if a != [] {
      var n := |a| - 1;
      ReadersIgnoreTime(a[..n], b[..n], src);
      StepsIgnoreTime(
        a[n], b[n], src, Received(src, a[..n]), Observed(a[..n]), Audited(src, a[..n]), Echoed(src, a[..n]));
    }
  }

  lemma ZeekIgnoresTime(p: Packet, q: Packet, z: Zeek)
    requires q == p.(time := q.time)
    ensures ZeekStep(z, p) == ZeekStep(z, q)
  {
    var d := p.src == (if z.origin.None? then p.src else z.origin.value);
    assert Classify(p, z.next.Get(d)) == Classify(q, z.next.Get(d)) && Span(p) == Span(q);
    hide Classify;
    hide Record;
    hide Glyph;
    hide Span;
    hide Max;
  }

  lemma StepsIgnoreTime(p: Packet, q: Packet, src: Addr, rx: Rx, z: Zeek, a: Audit, e: Echo)
    requires q == p.(time := q.time)
    ensures RxStep(src, rx, p) == RxStep(src, rx, q)
    ensures ZeekStep(z, p) == ZeekStep(z, q)
    ensures AuditStep(src, a, p) == AuditStep(src, a, q)
    ensures EchoStep(src, e, p) == EchoStep(src, e, q)
  {
    hide ZeekStep;
    hide AuditStep;
    hide EchoStep;
    ZeekIgnoresTime(p, q, z);
    AuditorsIgnoreTime(p, q, src, a, e);
  }

  lemma AuditorsIgnoreTime(p: Packet, q: Packet, src: Addr, a: Audit, e: Echo)
    requires q == p.(time := q.time)
    ensures AuditStep(src, a, p) == AuditStep(src, a, q)
    ensures EchoStep(src, e, p) == EchoStep(src, e, q)
  {
  }

  lemma RescaleSameWire(pkts: seq<Packet>, duration: Option<real>)
    ensures SameWire(pkts, Rescale(pkts, duration))
  {
  }

  lemma ProductSign(gap: real, scale: real)
    requires gap >= 0.0
    ensures scale >= 0.0 ==> gap * scale >= 0.0
    ensures scale < 0.0 ==> gap * scale <= 0.0
    ensures scale < 0.0 && gap > 0.0 ==> gap * scale < 0.0
  {
  }

  /** Scaling keeps order when the scale is not negative and reverses it otherwise. */
  lemma ScaleOrder(a: real, b: real, scale: real)
    requires a <= b
    ensures scale >= 0.0 ==> Scaled(a, scale) <= Scaled(b, scale)
    ensures scale < 0.0 ==> Scaled(b, scale) <= Scaled(a, scale)
    ensures scale < 0.0 && a < b ==> Scaled(b, scale) < Scaled(a, scale)
  {
    ProductSign(b - a, scale);
    assert (b - a) * scale == b * scale - a * scale;
  }

  lemma MovedOrder(p: Packet, q: Packet, t0: real, scale: real)
    requires p.time <= q.time
    ensures scale >= 0.0 ==> Moved(p, t0, scale).time <= Moved(q, t0, scale).time
    ensures scale < 0.0 ==> Moved(q, t0, scale).time <= Moved(p, t0, scale).time
    ensures scale < 0.0 && p.time < q.time ==> Moved(q, t0, scale).time < Moved(p, t0, scale).time
  {
    hide Scaled;
    ScaleOrder(p.time - t0, q.time - t0, scale);
  }

  lemma QuotientSign(d: real, span: real)
    requires span > 0.0
    ensures Scaled(span, d / span) == d
    ensures d >= 0.0 <==> d / span >= 0.0
  {
    var q := d / span;
    assert span * q == d;
    ProductSign(span, q);
  }

  /** A time inside the span lands inside the target, the ends on the ends. */
  lemma ScaledTime(x: real, span: real, d: real)
    requires 0.0 <= x <= span && span > 0.0
    ensures var y := Scaled(x, d / span);
            && (if d >= 0.0 then 0.0 <= y <= d else d <= y <= 0.0)
            && (x == 0.0 ==> y == 0.0) && (x == span ==> y == d)
  {
    assert Scaled(0.0, d / span) == 0.0;
    QuotientSign(d, span);
    hide Scaled;
    ScaleOrder(0.0, x, d / span);
    ScaleOrder(x, span, d / span);
  }

  lemma RescaledAt(pkts: seq<Packet>, d: real, i: nat)
    requires Stretches(pkts, Some(d)) && i < |pkts|
    ensures |Rescale(pkts, Some(d))| == |pkts|
    ensures Rescale(pkts, Some(d))[i].time
         == MinTime(pkts) + Scaled(pkts[i].time - MinTime(pkts), d / TimeSpan(pkts))
  {
    hide Scaled;
    hide MinTime;
    hide TimeSpan;
  }

  lemma {:induction false} MovedTime(pkts: seq<Packet>, d: real, i: nat)
    requires Stretches(pkts, Some(d)) && i < |pkts|
    ensures |Rescale(pkts, Some(d))| == |pkts|
    ensures var t := Rescale(pkts, Some(d))[i].time;
            var t0 := MinTime(pkts);
            && (if d >= 0.0 then t0 <= t <= t0 + d else t0 + d <= t <= t0)
            && (pkts[i].time == t0 ==> t == t0) && (pkts[i].time == MaxTime(pkts) ==> t == t0 + d)
  {
    var t0, span := MinTime(pkts), TimeSpan(pkts);
    var x := pkts[i].time - t0;
    assert 0.0 <= x <= span;
    RescaledAt(pkts, d, i);
    hide Scaled;
    hide Rescale;
    hide MinTime;
    hide MaxTime;
    ScaledTime(x, span, d);
  }

  lemma ExtremesMoved(pkts: seq<Packet>, d: real)
    requires Stretches(pkts, Some(d))
    ensures var r := Rescale(pkts, Some(d));
            && (exists i :: 0 <= i < |r| && r[i].time == MinTime(pkts))
            && (exists i :: 0 <= i < |r| && r[i].time == MinTime(pkts) + d)
  {
    var lo :| 0 <= lo < |pkts| && pkts[lo].time == MinTime(pkts);
    var hi :| 0 <= hi < |pkts| && pkts[hi].time == MaxTime(pkts);
    MovedTime(pkts, d, lo);
    MovedTime(pkts, d, hi);
    RescaleSameWire(pkts, Some(d));
    hide Rescale;
  }

  lemma StretchedSpan(pkts: seq<Packet>, d: real)
    requires Stretches(pkts, Some(d))
    ensures TimeSpan(Rescale(pkts, Some(d))) == d <==> d >= 0.0
  {
    var r := Rescale(pkts, Some(d));
    ExtremesMoved(pkts, d);
    forall i | 0 <= i < |r|
      ensures if d >= 0.0 then MinTime(pkts) <= r[i].time <= MinTime(pkts) + d
              else MinTime(pkts) + d <= r[i].time <= MinTime(pkts)
    {
      MovedTime(pkts, d, i);
    }
    hide Rescale;
  }

  /**
   A flow with a target duration spans it exactly when it is rescaled and the target is not negative,
   or it is left alone and spanned the target already. One packet, or packets all at one time, are
   left alone.
   */
  lemma {:induction false} RescaleSpan(pkts: seq<Packet>, d: real)
    requires pkts != []
    ensures Rescale(pkts, Some(d)) != []
    ensures TimeSpan(Rescale(pkts, Some(d))) == d
       <==> if Stretches(pkts, Some(d)) then d >= 0.0 else d == TimeSpan(pkts)
  {
    RescaleSameWire(pkts, Some(d));
    if Stretches(pkts, Some(d)) {
      StretchedSpan(pkts, d);
    }
  }

  lemma OrderedSpan(pkts: seq<Packet>)
    requires pkts != [] && InTimeOrder(pkts)
    ensures TimeSpan(pkts) == Duration(pkts)
  {
    var lo :| 0 <= lo < |pkts| && pkts[lo].time == MinTime(pkts);
    var hi :| 0 <= hi < |pkts| && pkts[hi].time == MaxTime(pkts);
    hide MinTime;
    hide MaxTime;
    assert pkts[0].time <= pkts[lo].time && pkts[hi].time <= pkts[|pkts| - 1].time;
  }

  lemma EndsApart(pkts: seq<Packet>)
    requires pkts != [] && InTimeOrder(pkts) && TimeSpan(pkts) > 0.0
    ensures pkts[0].time < pkts[|pkts| - 1].time
  {
    hide MinTime;
    hide MaxTime;
  }

  /** Emission order survives the rescale exactly when the target duration is not negative. */
  lemma RescaleOrder(pkts: seq<Packet>, duration: Option<real>)
    requires InTimeOrder(pkts)
    ensures InTimeOrder(Rescale(pkts, duration)) <==> !Stretches(pkts, duration) || duration.value >= 0.0
  {
    if Stretches(pkts, duration) {
      var r := Rescale(pkts, duration);
      var t0, scale := MinTime(pkts), duration.value / TimeSpan(pkts);
      QuotientSign(duration.value, TimeSpan(pkts));
      hide Moved;
      hide MinTime;
      hide TimeSpan;
      forall i, j | 0 <= i < j < |pkts|
        ensures scale >= 0.0 ==> r[i].time <= r[j].time
        ensures scale < 0.0 && pkts[i].time < pkts[j].time ==> r[j].time < r[i].time
      {
        MovedOrder(pkts[i], pkts[j], t0, scale);
      }
      var last := |pkts| - 1;
      assert pkts[0].time < pkts[last].time by { EndsApart(pkts); }
    }
  }

  // ---------------------------------------------------------------- demultiplexing

  function Between(c: Conn): Packet -> bool {
    (p: Packet) => Belongs(c.orig.addr, c.resp.addr, p)
  }

  /** One connection's packets, in capture order. */
  function Select(c: Conn, pkts: seq<Packet>): seq<Packet> {
    Filter(pkts, Between(c))
  }

  lemma {:induction false} FilterConcat(a: seq<Packet>, b: seq<Packet>, p: Packet -> bool)
    ensures Filter(a + b, p) == Filter(a, p) + Filter(b, p)
  {
    if a == [] {
      assert a + b == b;
    } else {
      assert (a + b)[1..] == a[1..] + b;
      FilterConcat(a[1..], b, p);
    }
  }

  lemma {:induction false} FilterAllOrNone(a: seq<Packet>, p: Packet -> bool)
    ensures (forall x :: x in a ==> p(x)) ==> Filter(a, p) == a
    ensures (forall x :: x in a ==> !p(x)) ==> Filter(a, p) == []
  {
    if a != [] {
      FilterAllOrNone(a[1..], p);
      assert forall x :: x in a[1..] ==> x in a;
    }
  }

  /** No other flow has a packet of the i-th flow's connection. */
  ghost predicate Separate(flows: seq<Flow>, i: nat)
    requires i < |flows| && flows[i].TcpFlow?
  {
    forall j :: 0 <= j < |flows| && j != i ==> Foreign(flows[i].conn, Render(flows[j]))
  }

  ghost predicate Foreign(c: Conn, pkts: seq<Packet>) {
    forall k :: 0 <= k < |pkts| ==> !Belongs(c.orig.addr, c.resp.addr, pkts[k])
  }

  /** Two TCP flows are separate whenever their endpoint pairs differ. */
  lemma {:induction false} DistinctConnectionsSeparate(c: Conn, f: Flow)
    requires f.TcpFlow? && f.conn.state.Supported() && Distinct(f.conn)
    requires {c.orig.addr, c.resp.addr} != {f.conn.orig.addr, f.conn.resp.addr}
    ensures Foreign(c, Render(f))
  {
    T.ConversationClocked(f.conn, f.msgs);
    hide Conversation;
  }

  lemma {:induction false} ForeignFlowsVanish(c: Conn, flows: seq<Flow>)
    requires forall j :: 0 <= j < |flows| ==> Foreign(c, Render(flows[j]))
    ensures Select(c, AllEmitted(flows)) == []
  {
    hide Render;
    hide Rescale;
    if flows != [] {
      ForeignFlowsVanish(c, flows[1..]);
      RescaleSameWire(Render(flows[0]), flows[0].duration);
      FilterAllOrNone(Emitted(flows[0]), Between(c));
      FilterConcat(Emitted(flows[0]), AllEmitted(flows[1..]), Between(c));
    }
  }

  lemma OwnPacketsKept(f: Flow)
    requires f.TcpFlow? && f.conn.state.Supported() && Distinct(f.conn)
    ensures Select(f.conn, Emitted(f)) == Emitted(f)
  {
    T.ConversationClocked(f.conn, f.msgs);
    hide Conversation;
    RescaleSameWire(Render(f), f.duration);
    hide Rescale;
    FilterAllOrNone(Emitted(f), Between(f.conn));
  }

  lemma {:induction false} SelectEmission(flows: seq<Flow>, i: nat)
    requires i < |flows| && flows[i].TcpFlow? && flows[i].conn.state.Supported()
    requires Distinct(flows[i].conn) && Separate(flows, i)
    ensures Select(flows[i].conn, AllEmitted(flows)) == Emitted(flows[i])
  {
    hide Render;
    var c := flows[i].conn;
    var a, b := flows[..i], flows[i + 1..];
    assert flows == a + ([flows[i]] + b);
    AllEmittedConcat(a, [flows[i]] + b);
    assert ([flows[i]] + b)[1..] == b;
    ForeignFlowsVanish(c, a);
    ForeignFlowsVanish(c, b);
    OwnPacketsKept(flows[i]);
    FilterConcat(AllEmitted(a), Emitted(flows[i]) + AllEmitted(b), Between(c));
    FilterConcat(Emitted(flows[i]), AllEmitted(b), Between(c));
    assert [] + (Emitted(flows[i]) + []) == Emitted(flows[i]);
  }

  lemma OrderIsSorted(pkts: seq<Packet>)
    ensures SortedBy(pkts, TIME) <==> InTimeOrder(pkts)
  {
    assert forall i :: 0 <= i < |pkts| ==> TIME(pkts[i]) == pkts[i].time;
  }

  /**
   Demultiplexing. Selecting one connection from the merged capture gives its emission order exactly
   when that flow's packets were emitted in time order.
   */
  lemma {:induction false} Demultiplex(flows: seq<Flow>, i: nat)
    requires i < |flows| && flows[i].TcpFlow? && flows[i].conn.state.Supported()
    requires Distinct(flows[i].conn) && Separate(flows, i)
    ensures Select(flows[i].conn, Capture(flows)) == Emitted(flows[i]) <==> InTimeOrder(Emitted(flows[i]))
  {
    SelectEmission(flows, i);
    SelectFromSorted(AllEmitted(flows), Between(flows[i].conn), TIME);
    OrderIsSorted(Emitted(flows[i]));
  }

  ghost predicate Mergeable(flows: seq<Flow>, i: nat) {
    && i < |flows| && flows[i].TcpFlow?
    && flows[i].conn.state.Supported() && Distinct(flows[i].conn) && Separate(flows, i)
    && flows[i].conn.rtt >= 0.0
    && (flows[i].duration.None? || flows[i].duration.value >= 0.0)
  }

  /** End to end: from the merged, rescaled capture each direction's payloads are still recovered. */
  lemma StreamSurvivesMerge(flows: seq<Flow>, i: nat, d: bool)
    requires Mergeable(flows, i) && flows[i].conn.state.Established() && flows[i].conn.SegSize() > 0
    ensures var rx := Received(flows[i].conn.End(d), Select(flows[i].conn, Capture(flows)));
            !rx.gap && !rx.conflict && rx.data == T.Payloads(flows[i].msgs, d)
  {
    SeenIsEmission(flows, i);
    T.StreamRecovered(flows[i].conn, flows[i].msgs, d);
    hide Conversation;
    ReadersIgnoreTime(Render(flows[i]), Select(flows[i].conn, Capture(flows)), flows[i].conn.End(d));
    hide Select;
    hide Received;
  }

  /** How long the merged capture shows the flow to last: its target where a rescale happened. */
  function ShownDuration(f: Flow): real {
    if Stretches(Render(f), f.duration) then f.duration.value else Duration(Render(f))
  }

  /** The observer of the merged capture writes the builder's record, with the duration the flow is shown to have. */
  lemma {:induction false} RecordSurvivesMerge(flows: seq<Flow>, i: nat)
    requires Mergeable(flows, i)
    ensures var c := flows[i].conn;
            var seen := Select(c, Capture(flows));
            var mine := Summarize(c, Conversation(c, flows[i].msgs));
            && Audited(c.orig.addr, seen).ok
            && ConnLog(seen).duration == ShownDuration(flows[i])
            && (flows[i].duration.None? ==> ConnLog(seen).duration == mine.duration)
            && (c.orig.addr.ip != c.resp.addr.ip ==>
                  ConnLog(seen) == mine.(duration := ShownDuration(flows[i])))
  {
    var c := flows[i].conn;
    SeenIsEmission(flows, i);
    T.SequencesAudited(c, flows[i].msgs);
    T.ConnLogAgrees(c, flows[i].msgs);
    hide Conversation;
    ReadersIgnoreTime(Render(flows[i]), Select(c, Capture(flows)), c.orig.addr);
    hide Select;
    hide Observed;
    hide Audited;
    hide Rescale;
    hide Verdict;
    hide T.WireBytes;
  }

  /**
   The duration promised for a flow is the one logged exactly when the flow could be rescaled, or
   lasted that long already. An answered conversation with a positive rtt always can; an unanswered
   SYN never can, and a refusal only with a positive rtt.
   */
  lemma {:induction false} DurationHonoured(flows: seq<Flow>, i: nat)
    requires Mergeable(flows, i) && flows[i].duration.Some?
    ensures var f, d := flows[i], flows[i].duration.value;
            var logged := ConnLog(Select(f.conn, Capture(flows))).duration;
            && (logged == d <==> Stretches(Render(f), Some(d)) || Duration(Render(f)) == d)
            && (f.conn.rtt > 0.0 && !f.conn.state.S0? ==> logged == d)
            && (f.conn.state.S0? || (f.conn.state.REJ? && f.conn.rtt == 0.0) ==> (logged == d <==> d == 0.0))
  {
    RecordSurvivesMerge(flows, i);
    AnsweredStretches(flows[i]);
    hide Select;
    hide Capture;
    hide ConnLog;
    hide Render;
  }

  lemma ApartStretches(pkts: seq<Packet>, duration: Option<real>)
    requires 2 <= |pkts| && pkts[0].time < pkts[1].time && duration.Some?
    ensures Stretches(pkts, duration)
  {
    assert MinTime(pkts) <= pkts[0].time && pkts[1].time <= MaxTime(pkts);
    hide MinTime;
    hide MaxTime;
  }

  lemma TogetherStays(pkts: seq<Packet>, duration: Option<real>)
    requires pkts != [] && |pkts| <= 2 && pkts[0].time == pkts[|pkts| - 1].time
    ensures !Stretches(pkts, duration) && Duration(pkts) == 0.0
  {
    var lo :| 0 <= lo < |pkts| && pkts[lo].time == MinTime(pkts);
    var hi :| 0 <= hi < |pkts| && pkts[hi].time == MaxTime(pkts);
    hide MinTime;
    hide MaxTime;
  }

  lemma AnsweredStretches(f: Flow)
    requires f.TcpFlow? && f.conn.state.Supported() && Distinct(f.conn) && f.conn.rtt >= 0.0 && f.duration.Some?
    ensures f.conn.rtt > 0.0 && !f.conn.state.S0? ==> Stretches(Render(f), f.duration)
    ensures f.conn.state.S0? || (f.conn.state.REJ? && f.conn.rtt == 0.0) ==>
      !Stretches(Render(f), f.duration) && Duration(Render(f)) == 0.0
  {
    hide Stretches;
    var c, pkts := f.conn, Render(f);
    UnansweredSize(f);
    hide Conversation;
    if c.state.S0? {
      TogetherStays(pkts, f.duration);
    } else {
      T.AnswerGap(c, f.msgs);
      if c.rtt > 0.0 {
        ApartStretches(pkts, f.duration);
      } else if c.state.REJ? {
        TogetherStays(pkts, f.duration);
      }
    }
  }

  lemma UnansweredSize(f: Flow)
    requires f.TcpFlow?
    ensures f.conn.state.S0? ==> |Render(f)| == 1
    ensures f.conn.state.REJ? ==> |Render(f)| == 2
  {
  }

  lemma {:induction false} SeenIsEmission(flows: seq<Flow>, i: nat)
    requires Mergeable(flows, i)
    ensures var seen := Select(flows[i].conn, Capture(flows));
            && SameWire(Render(flows[i]), seen) && seen == Emitted(flows[i])
            && Duration(seen) == ShownDuration(flows[i])
  {
    var f := flows[i];
    T.ClockDiscipline(f.conn, f.msgs);
    hide Conversation;
    hide InTimeOrder;
    hide Capture;
    hide Select;
    RescaleOrder(Render(f), f.duration);
    Demultiplex(flows, i);
    RescaleSameWire(Render(f), f.duration);
    if Stretches(Render(f), f.duration) {
      RescaleSpan(Render(f), f.duration.value);
      OrderedSpan(Emitted(f));
    }
  }

  /**
   A well-formed set of flows: TCP flows with pairwise different endpoint pairs and no negative times,
   and any other flows that send no packet between the ends of one of them.
   */
  ghost predicate WellFormedSet(flows: seq<Flow>) {
    && (forall i :: 0 <= i < |flows| && flows[i].TcpFlow? ==>
          && flows[i].conn.state.Supported() && Distinct(flows[i].conn)
          && flows[i].conn.rtt >= 0.0 && flows[i].conn.SegSize() > 0
          && (flows[i].duration.None? || flows[i].duration.value >= 0.0))
    && forall i, j :: 0 <= i < |flows| && 0 <= j < |flows| && i != j && flows[i].TcpFlow? ==>
         Compatible(flows[i].conn, flows[j])
  }

  ghost predicate Compatible(c: Conn, f: Flow) {
    match f
    case TcpFlow(other, _, _) => {c.orig.addr, c.resp.addr} != {other.orig.addr, other.resp.addr}
    case OtherFlow(pkts, _) => Foreign(c, pkts)
    case UnknownKind(_, _) => true
  }

  /** The i-th flow's side `d` as the one capture of the whole set shows it. */
  ghost predicate Recovered(flows: seq<Flow>, i: nat, d: bool)
    requires i < |flows| && flows[i].TcpFlow?
  {
    Received(flows[i].conn.End(d), Select(flows[i].conn, Capture(flows))).data == T.Payloads(flows[i].msgs, d)
  }

  /** The whole chain for a whole flow set: every stream of every TCP flow is in the one capture. */
  lemma {:induction false} EveryStreamRecovered(flows: seq<Flow>)
    requires WellFormedSet(flows)
    ensures forall i, d :: 0 <= i < |flows| && flows[i].TcpFlow? && flows[i].conn.state.Established() ==>
              Recovered(flows, i, d)
  {
    hide Capture;
    hide Select;
    hide Received;
    hide Render;
    forall i, d | 0 <= i < |flows| && flows[i].TcpFlow? && flows[i].conn.state.Established()
      ensures Recovered(flows, i, d)
    {
      AllSeparate(flows, i);
      StreamSurvivesMerge(flows, i, d);
    }
  }

  lemma {:induction false} AllSeparate(flows: seq<Flow>, i: nat)
    requires WellFormedSet(flows) && i < |flows| && flows[i].TcpFlow?
    ensures Mergeable(flows, i)
  {
    hide Foreign;
    hide Conversation;
    forall j | 0 <= j < |flows| && j != i ensures Foreign(flows[i].conn, Render(flows[j])) {
      assert Compatible(flows[i].conn, flows[j]);
      match flows[j]
      case TcpFlow(_, _, _) => DistinctConnectionsSeparate(flows[i].conn, flows[j]);
      case OtherFlow(_, _) =>
      case UnknownKind(_, _) => NoneForeign(flows[i].conn);
    }
  }

  lemma NoneForeign(c: Conn)
    ensures Foreign(c, [])
  {
  }
}
