/** Rule inversion: refusal and dispatch in `invert`, and the accounting of `conditioned_fp_flows`. */
module Signatures {
  import opened Numbers
  import opened Seqs
  import opened Bytes
  import opened Sorting

  datatype Buffer = Raw | UserAgent | Uri | Host | DnsQuery

  datatype Content = Content(buffer: Buffer, data: bytes, negated: bool)

  /** A parsed rule; a port token that is no number is None, and `forbidden` is the verdict of the deny lists. */
  datatype RuleSpec = RuleSpec(
    sid: int, proto: string, srcPort: Option<int>, dstPort: Option<int>, forbidden: bool,
    srcIplist: seq<string>, contents: seq<Content>)
  {
    predicate Renderable() { !forbidden }
  }

  datatype L7 =
    | Http(host: bytes, uri: bytes, userAgent: bytes)
    | Dns(answer: string)
    | OpaqueUdp(literal: bytes, origBytes: nat)
    | OpaqueTcp(literal: bytes, origBytes: nat, respBytes: nat)

  /** A flow; `flowId` is the number printed after the id prefix. */
  datatype Flow = Flow(
    flowId: nat, src: string, dst: string, srcPort: int, dstPort: int, start: real, expectedAlert: seq<int>, l7: L7)

  /** What `invert` takes from outside this model: the resolver, broadcast and listed-host addresses, rounding. */
  datatype World = World(
    dnsServer: string, broadcast: string -> string, firstHost: string -> string, rounded: real -> real,
    defaultHost: bytes)

  const SLASH: byte := 47

  /** `bytes.lstrip("/")` */
  function LStrip(s: bytes): (r: bytes)
    ensures r == [] || r[0] != SLASH
    ensures |r| <= |s|
  {
    if s != [] && s[0] == SLASH then LStrip(s[1..]) else s
  }

  function Strips(parts: seq<bytes>): (r: seq<bytes>)
    ensures |r| == |parts| && forall i :: 0 <= i < |parts| ==> r[i] == LStrip(parts[i])
  {
    seq(|parts|, i requires 0 <= i < |parts| => LStrip(parts[i]))
  }

  function UriOf(parts: seq<bytes>): bytes {
    [SLASH] + Flatten(Strips(parts))
  }

  /** Positive contents of one buffer, in rule order. */
  function First(contents: seq<Content>, buffer: Buffer): seq<bytes> {
    if contents == [] then []
    else
      var own := contents[0].buffer == buffer && !contents[0].negated;
      (if own then [contents[0].data] else []) + First(contents[1..], buffer)
  }

  function PortOf(rule: RuleSpec): Option<int> {
    if rule.dstPort.Some? && rule.dstPort.value != 0 then rule.dstPort
    else if rule.srcPort.Some? && rule.srcPort.value != 0 then rule.srcPort
    else None
  }

  function Invert(
    rule: RuleSpec, w: World, client: string, dst: string, sport: int, start: real, flowId: nat): (r: Option<Flow>)
  {
    var ua := First(rule.contents, UserAgent);
    var uri := First(rule.contents, Uri);
    var host := First(rule.contents, Host);
    var dns := First(rule.contents, DnsQuery);
    var raw := First(rule.contents, Raw);
    var at := w.rounded(start);
    if !rule.Renderable() then None
    else if rule.proto == "http" && ua != [] then
      Some(Flow(flowId, client, dst, sport, 80, at, [rule.sid], Http(w.defaultHost, [SLASH], ua[0])))
    else if rule.proto == "http" && uri != [] then
      Some(Flow(flowId, client, dst, sport, 80, at, [rule.sid],
                Http(if host != [] then host[0] else w.defaultHost, UriOf(uri), [])))
    else if dns != [] then
      Some(Flow(flowId, client, w.dnsServer, sport, 53, at, [rule.sid], Dns(dst)))
    else if raw != [] && PortOf(rule).Some? then
      var blob := Flatten(raw);
      if rule.proto == "udp" then
        var sp := if rule.srcPort.Some? && rule.srcPort.value != 0 then rule.srcPort.value else sport;
        Some(Flow(flowId, client, w.broadcast(client), sp, PortOf(rule).value, at, [rule.sid],
                  OpaqueUdp(blob, Max(|blob|, 40))))
      else
        Some(Flow(flowId, client, dst, sport, PortOf(rule).value, at, [rule.sid],
                  OpaqueTcp(blob, Max(|blob|, 24), 48)))
    else if rule.srcIplist != [] then
      Some(Flow(flowId, w.firstHost(rule.srcIplist[0]), client, 40000 + sport % 20000, 443, at, [rule.sid],
                OpaqueTcp([], 0, 0)))
    else None
  }

  /** What a rule must offer for a trigger to exist, whatever the addresses and the time. */
  predicate Invertible(rule: RuleSpec) {
    && rule.Renderable()
    && (First(rule.contents, DnsQuery) != []
        || rule.srcIplist != []
        || (rule.proto == "http" && (First(rule.contents, UserAgent) != [] || First(rule.contents, Uri) != []))
        || (First(rule.contents, Raw) != [] && PortOf(rule).Some?))
  }

  /** A forbidden rule is never rendered; a rendered flow names the rule it is for and no other. */
  lemma InvertLabels(rule: RuleSpec, w: World, client: string, dst: string, sport: int, start: real, flowId: nat)
    ensures
      var made := Invert(rule, w, client, dst, sport, start, flowId);
      && (made.Some? <==> Invertible(rule))
      && (rule.forbidden ==> made.None?)
      && (made.Some? ==> made.value.expectedAlert == [rule.sid] && made.value.flowId == flowId
                         && made.value.start == w.rounded(start))
  {
    hide First;
    hide Flatten;
    hide UriOf;
  }

  // ---------------------------------------------------------------- does the trigger carry the contents?

  /** Slashes that building a path takes off the front of its fragments. */
  function Lost(parts: seq<bytes>): nat {
    if parts == [] then 0 else |parts[0]| - |LStrip(parts[0])| + Lost(parts[1..])
  }

  lemma StripsTail(parts: seq<bytes>)
    requires parts != []
    ensures Strips(parts)[1..] == Strips(parts[1..])
    ensures Flatten(Strips(parts)) == LStrip(parts[0]) + Flatten(Strips(parts[1..]))
  {
    assert Strips(parts)[1..] == Strips(parts[1..]);
  }

  lemma {:induction false} LostLength(parts: seq<bytes>)
    ensures |Flatten(parts)| == |Flatten(Strips(parts))| + Lost(parts)
  {
    if parts != [] {
      StripsTail(parts);
      LostLength(parts[1..]);
    }
  }

  lemma NothingStripped(s: bytes)
    ensures |s| == |LStrip(s)| <==> LStrip(s) == s
    ensures LStrip(s) == s <==> s == [] || s[0] != SLASH
  {
  }

  lemma {:induction false} NothingLost(parts: seq<bytes>)
    requires Lost(parts) == 0
    ensures Flatten(Strips(parts)) == Flatten(parts)
  {
    if parts != [] {
      StripsTail(parts);
      NothingStripped(parts[0]);
      NothingLost(parts[1..]);
    }
  }

  /** One slash lost, and the joined fragments begin with it. */
  lemma {:induction false} LeadingSlashLost(parts: seq<bytes>)
    requires Lost(parts) == 1 && Flatten(parts) != [] && Flatten(parts)[0] == SLASH
    ensures UriOf(parts) == Flatten(parts)
  {
    StripsTail(parts);
    if parts[0] == [] {
      assert Flatten(parts) == Flatten(parts[1..]);
      LeadingSlashLost(parts[1..]);
      assert Flatten(Strips(parts)) == Flatten(Strips(parts[1..]));
    } else {
      NothingStripped(parts[0]);
      assert Lost(parts[1..]) == 0;
      NothingLost(parts[1..]);
      assert parts[0][0] == SLASH && LStrip(parts[0]) == LStrip(parts[0][1..]) == parts[0][1..] by {
        NothingStripped(parts[0][1..]);
      }
    }
  }

  /**
   The path ends with all the rule's URI fragments, back to back, exactly when at most the slash
   that starts the first of them was taken off.
   */
  lemma PathCarriesFragments(parts: seq<bytes>)
    ensures
      (|Flatten(parts)| <= |UriOf(parts)| && UriOf(parts)[|UriOf(parts)| - |Flatten(parts)|..] == Flatten(parts))
      <==> Lost(parts) == 0 || (Lost(parts) == 1 && [SLASH] <= Flatten(parts))
  {
    LostLength(parts);
    var uri, joined := UriOf(parts), Flatten(parts);
    if Lost(parts) == 0 {
      NothingLost(parts);
      assert uri[1..] == joined;
    } else if Lost(parts) == 1 {
      assert |uri| == |joined| && uri[0..] == uri;
      if joined[0] == SLASH {
        LeadingSlashLost(parts);
      } else {
        assert uri[0] != joined[0];
      }
    }
  }

  predicate OccursAt(fragment: bytes, path: bytes, k: nat) {
    k + |fragment| <= |path| && path[k..k + |fragment|] == fragment
  }

  /** The path contains the fragment. */
  ghost predicate Occurs(fragment: bytes, path: bytes) {
    exists k :: OccursAt(fragment, path, k)
  }

  function Slashes(n: nat): (r: bytes)
    ensures |r| == n && forall i :: 0 <= i < n ==> r[i] == SLASH
  {
    seq(n, _ => SLASH)
  }

  /** Slashes taken off the front of a fragment. */
  function Stripped(fragment: bytes): nat {
    |fragment| - |LStrip(fragment)|
  }

  /** Slashes at the end of a path. */
  function Trailing(path: bytes): (n: nat)
    ensures n <= |path|
  {
    if path == [] || path[|path| - 1] != SLASH then 0 else 1 + Trailing(path[..|path| - 1])
  }

  /** The whole of fragment i, slashes included, ends where its text was placed. */
  predicate InPlace(parts: seq<bytes>, i: nat)
    requires i < |parts|
  {
    var end := |UriOf(parts[..i])| + |LStrip(parts[i])|;
    |parts[i]| <= end && OccursAt(parts[i], UriOf(parts), end - |parts[i]|)
  }

  lemma {:induction false} SlashesStripped(s: bytes)
    ensures s == Slashes(Stripped(s)) + LStrip(s)
  {
    if s != [] && s[0] == SLASH {
      SlashesStripped(s[1..]);
      assert s == [SLASH] + s[1..];
      assert Slashes(Stripped(s)) == [SLASH] + Slashes(Stripped(s[1..]));
    }
  }

  lemma {:induction false} TrailingSlashes(path: bytes, n: nat)
    requires n <= |path|
    ensures path[|path| - n..] == Slashes(n) <==> n <= Trailing(path)
  {
    if n > 0 {
      var m := |path| - 1;
      var front := path[..m];
      TrailingSlashes(front, n - 1);
      assert path[|path| - n..] == front[m - (n - 1)..] + [path[m]];
      assert Slashes(n) == Slashes(n - 1) + [SLASH];
      if path[|path| - n..] == Slashes(n) {
        assert path[m] == Slashes(n)[n - 1];
        assert front[m - (n - 1)..] == Slashes(n)[..n - 1] == Slashes(n - 1);
      }
    } else {
      assert path[|path|..] == [];
    }
  }

  lemma {:induction false} StripsConcat(a: seq<bytes>, b: seq<bytes>)
    ensures Flatten(Strips(a + b)) == Flatten(Strips(a)) + Flatten(Strips(b))
  {
    assert Strips(a + b) == Strips(a) + Strips(b);
    FlattenConcat(Strips(a), Strips(b));
  }

  /** The path around one fragment's text. */
  lemma UriSplit(parts: seq<bytes>, i: nat) returns (rest: bytes)
    requires i < |parts|
    ensures UriOf(parts) == UriOf(parts[..i]) + LStrip(parts[i]) + rest
  {
    assert parts == parts[..i] + [parts[i]] + parts[i + 1..];
    StripsConcat(parts[..i] + [parts[i]], parts[i + 1..]);
    StripsConcat(parts[..i], [parts[i]]);
    assert Strips([parts[i]]) == [LStrip(parts[i])];
    FlattenOne(LStrip(parts[i]));
    rest := Flatten(Strips(parts[i + 1..]));
  }

  /**
   A fragment is in the path where it was placed exactly when the path before it ends with at least as
   many slashes as were taken off its front.
   */
  lemma FragmentInPlace(parts: seq<bytes>, i: nat)
    requires i < |parts|
    ensures InPlace(parts, i) <==> Stripped(parts[i]) <= Trailing(UriOf(parts[..i]))
  {
    hide UriOf;
    hide Trailing;
    var before, text, n := UriOf(parts[..i]), LStrip(parts[i]), Stripped(parts[i]);
    var rest := UriSplit(parts, i);
    var path := UriOf(parts);
    SlashesStripped(parts[i]);
    if n <= |before| {
      TrailingSlashes(before, n);
      var at := path[|before| - n..|before| + |text|];
      assert at == before[|before| - n..] + text;
      assert at[..n] == before[|before| - n..] && parts[i][..n] == Slashes(n);
    }
  }

  /**
   Every fragment is in the path where it was placed exactly when each finds enough slashes before it,
   and then the path contains all of them, as the source intends.
   */
  lemma PathContainsFragments(parts: seq<bytes>)
    ensures (forall i :: 0 <= i < |parts| ==> InPlace(parts, i))
       <==> forall i :: 0 <= i < |parts| ==> Stripped(parts[i]) <= Trailing(UriOf(parts[..i]))
    ensures forall i :: 0 <= i < |parts| && InPlace(parts, i) ==> Occurs(parts[i], UriOf(parts))
  {
    hide InPlace;
    hide UriOf;
    hide Stripped;
    forall i | 0 <= i < |parts|
      ensures InPlace(parts, i) <==> Stripped(parts[i]) <= Trailing(UriOf(parts[..i]))
      ensures InPlace(parts, i) ==> Occurs(parts[i], UriOf(parts))
    {
      FragmentInPlace(parts, i);
      InPlaceOccurs(parts, i);
    }
  }

  lemma InPlaceOccurs(parts: seq<bytes>, i: nat)
    requires i < |parts|
    ensures InPlace(parts, i) ==> Occurs(parts[i], UriOf(parts))
  {
  }

  const A: bytes := [SLASH, 97]
  const B: bytes := [SLASH, 98]

  lemma OneSlash(x: byte)
    requires x != SLASH
    ensures LStrip([SLASH, x]) == [x]
  {
    var fragment: bytes := [SLASH, x];
    assert fragment[1..] == [x];
  }

  lemma TwoFragments(x: byte, y: byte)
    requires x != SLASH && y != SLASH
    ensures UriOf([[SLASH, x], [SLASH, y]]) == [SLASH, x, y]
  {
    OneSlash(x);
    OneSlash(y);
    hide LStrip;
    var first, second: bytes := [x], [y];
    assert Strips([[SLASH, x], [SLASH, y]]) == [first] + [second];
    FlattenConcat([first], [second]);
    FlattenOne(first);
    FlattenOne(second);
  }

  lemma TwoBytesAt(fragment: bytes, path: bytes, k: nat)
    requires |fragment| == 2
    ensures OccursAt(fragment, path, k) ==> k + 1 < |path| && path[k] == fragment[0] && path[k + 1] == fragment[1]
  {
    if OccursAt(fragment, path, k) {
      assert path[k..k + 2][0] == path[k] && path[k..k + 2][1] == path[k + 1];
    }
  }

  /** The promise fails: with fragments "/a" and "/b" the path is "/ab", which does not contain "/b". */
  lemma InnerSlashGone()
    ensures UriOf([A, B]) == [SLASH, 97, 98]
    ensures Occurs(A, UriOf([A, B])) && !Occurs(B, UriOf([A, B]))
  {
    TwoFragments(97, 98);
    var path := UriOf([A, B]);
    assert OccursAt(A, path, 0);
    forall k: nat ensures !OccursAt(B, path, k) {
      TwoBytesAt(B, path, k);
    }
  }

  /** A fragment that lost its place may still be there by repetition: "/a" twice gives "/aa". */
  lemma RepeatedFragment()
    ensures Occurs(A, UriOf([A, A])) && !InPlace([A, A], 1)
  {
    TwoFragments(97, 97);
    assert OccursAt(A, UriOf([A, A]), 0);
    assert [A, A][..1] == [A];
    var text: bytes := [97];
    assert LStrip(A) == text;
    assert Strips([A]) == [text];
    FlattenOne(text);
    assert UriOf([A]) == [SLASH] + text;
    assert UriOf([A, A]) == [SLASH, 97, 97];
    assert UriOf([A, A])[1..3] == [97, 97];
  }

  /** Through `invert`: the request of a URI rule contains every positive URI content that finds its slashes. */
  lemma UriRuleCarried(
    rule: RuleSpec, w: World, client: string, dst: string, sport: int, start: real, flowId: nat, i: nat)
    requires rule.Renderable() && rule.proto == "http" && First(rule.contents, UserAgent) == []
    requires i < |First(rule.contents, Uri)|
    ensures
      var parts, made := First(rule.contents, Uri), Invert(rule, w, client, dst, sport, start, flowId);
      && made.Some? && made.value.l7.Http? && made.value.l7.uri == UriOf(parts)
      && (Stripped(parts[i]) <= Trailing(UriOf(parts[..i])) ==> Occurs(parts[i], made.value.l7.uri))
  {
    var parts := First(rule.contents, Uri);
    FragmentInPlace(parts, i);
    InPlaceOccurs(parts, i);
    hide UriOf;
    hide First;
    hide InPlace;
    hide Occurs;
  }

  // ---------------------------------------------------------------- the histogram

  datatype Entry = Entry(msg: string, count: int)

  function Get(unmatched: map<string, int>, msg: string): int {
    if msg in unmatched then unmatched[msg] else 0
  }

  function Clip(count: int): nat { if count < 0 then 0 else count }

  function CountIf(flows: seq<Flow>, p: Flow -> bool): nat {
    |Filter(flows, p)|
  }

  function HasSid(sid: int): Flow -> bool {
    (f: Flow) => f.expectedAlert == [sid]
  }

  function CountSid(flows: seq<Flow>, sid: int): nat {
    CountIf(flows, HasSid(sid))
  }

  /** Which signature each flow id was made for. */
  type Ledger = map<nat, string>

  function Under(ledger: Ledger, msg: string): Flow -> bool {
    (f: Flow) => f.flowId in ledger && ledger[f.flowId] == msg
  }

  /** How many flows were made for one signature. */
  function CountFor(flows: seq<Flow>, ledger: Ledger, msg: string): nat {
    CountIf(flows, Under(ledger, msg))
  }

  predicate RuleHasSid(rules: map<string, RuleSpec>, msg: string, sid: int) {
    msg in rules && rules[msg].sid == sid
  }

  function SumOf(entries: seq<Entry>, f: Entry -> int): int {
    if entries == [] then 0 else f(entries[0]) + SumOf(entries[1..], f)
  }

  const WANTED: Entry -> int := (e: Entry) => Clip(e.count)

  function Missing(unmatched: map<string, int>): Entry -> int {
    (e: Entry) => Get(unmatched, e.msg)
  }

  function ForSid(rules: map<string, RuleSpec>, sid: int, f: Entry -> int): Entry -> int {
    (e: Entry) => if RuleHasSid(rules, e.msg, sid) then f(e) else 0
  }

  predicate CanMake(rules: map<string, RuleSpec>, msg: string) {
    msg in rules && Invertible(rules[msg])
  }

  /** What the rules alone would let through. */
  function Makeable(rules: map<string, RuleSpec>): Entry -> int {
    (e: Entry) => if CanMake(rules, e.msg) then Clip(e.count) else 0
  }

  const START: Flow -> real := (f: Flow) => f.start
  const ID: Flow -> nat := (f: Flow) => f.flowId
  const MSG: Entry -> string := (e: Entry) => e.msg
  const DESCENDING: Entry -> real := (e: Entry) => -(e.count as real)

  /** `sorted(target.items(), key=lambda kv: (-kv[1], kv[0]))`, with any order on names. */
  function Ordered(target: seq<Entry>, nameRank: string -> real): seq<Entry> {
    StableSort(StableSort(target, (e: Entry) => nameRank(e.msg)), DESCENDING)
  }

  lemma {:induction false} SumSnoc(entries: seq<Entry>, e: Entry, f: Entry -> int)
    ensures SumOf(entries + [e], f) == SumOf(entries, f) + f(e)
  {
    if entries == [] {
      assert [] + [e] == [e] && [e][1..] == [];
    } else {
      assert (entries + [e])[1..] == entries[1..] + [e];
      SumSnoc(entries[1..], e, f);
    }
  }

  lemma {:induction false} SumInsert(x: Entry, ys: seq<Entry>, key: Entry -> real, f: Entry -> int)
    ensures SumOf(Insert(x, ys, key), f) == f(x) + SumOf(ys, f)
  {
    if ys == [] || key(x) <= key(ys[0]) {
      assert ([x] + ys)[1..] == ys;
    } else {
      SumInsert(x, ys[1..], key, f);
      assert ([ys[0]] + Insert(x, ys[1..], key))[1..] == Insert(x, ys[1..], key);
    }
  }

  lemma {:induction false} SumSort(entries: seq<Entry>, key: Entry -> real, f: Entry -> int)
    ensures SumOf(StableSort(entries, key), f) == SumOf(entries, f)
  {
    if entries != [] {
      SumSort(entries[1..], key, f);
      SumInsert(entries[0], StableSort(entries[1..], key), key, f);
    }
  }

  lemma SumOrdered(target: seq<Entry>, nameRank: string -> real, f: Entry -> int)
    ensures SumOf(Ordered(target, nameRank), f) == SumOf(target, f)
  {
    var byName := (e: Entry) => nameRank(e.msg);
    SumSort(target, byName, f);
    SumSort(StableSort(target, byName), DESCENDING, f);
  }

  lemma {:induction false} CountConcat(a: seq<Flow>, b: seq<Flow>, p: Flow -> bool)
    ensures CountIf(a + b, p) == CountIf(a, p) + CountIf(b, p)
  {
    if a == [] {
      assert a + b == b;
    } else {
      assert (a + b)[1..] == a[1..] + b;
      CountConcat(a[1..], b, p);
    }
  }

  lemma {:induction false} CountAll(flows: seq<Flow>, p: Flow -> bool)
    ensures (forall f :: f in flows ==> p(f)) ==> CountIf(flows, p) == |flows|
    ensures (forall f :: f in flows ==> !p(f)) ==> CountIf(flows, p) == 0
  {
    if flows != [] {
      CountAll(flows[1..], p);
    }
  }

  lemma {:induction false} CountSame(flows: seq<Flow>, p: Flow -> bool, q: Flow -> bool)
    requires forall f :: f in flows ==> p(f) == q(f)
    ensures CountIf(flows, p) == CountIf(flows, q)
  {
    if flows != [] {
      CountSame(flows[1..], p, q);
    }
  }

  lemma {:induction false} InsertCounts(f: Flow, flows: seq<Flow>, p: Flow -> bool)
    ensures CountIf(Insert(f, flows, START), p) == CountIf([f] + flows, p)
  {
    if !(flows == [] || START(f) <= START(flows[0])) {
      InsertCounts(f, flows[1..], p);
      FilterCons(flows[0], Insert(f, flows[1..], START), p);
      FilterCons(f, flows, p);
      FilterCons(f, flows[1..], p);
    }
  }

  lemma {:induction false} SortCounts(flows: seq<Flow>, p: Flow -> bool)
    ensures CountIf(StableSort(flows, START), p) == CountIf(flows, p)
  {
    if flows != [] {
      SortCounts(flows[1..], p);
      InsertCounts(flows[0], StableSort(flows[1..], START), p);
      FilterCons(flows[0], StableSort(flows[1..], START), p);
    }
  }

  function Names(entries: seq<Entry>): set<string> {
    set e | e in entries :: e.msg
  }

  /** The flow was made for a requested signature whose rule may be rendered, and is labelled with that rule. */
  ghost predicate MadeFor(f: Flow, ledger: Ledger, target: seq<Entry>, rules: map<string, RuleSpec>) {
    && f.flowId in ledger && ledger[f.flowId] in Names(target)
    && CanMake(rules, ledger[f.flowId])
    && f.expectedAlert == [rules[ledger[f.flowId]].sid]
  }

  /** Flows with ids in a range, all made for one signature and labelled with its rule. */
  ghost predicate AllFor(
    flows: seq<Flow>, ledger: Ledger, rules: map<string, RuleSpec>, msg: string, from: nat, to: nat)
  {
    forall f :: f in flows ==>
      && from <= f.flowId < to && f.flowId in ledger && ledger[f.flowId] == msg
      && CanMake(rules, msg) && f.expectedAlert == [rules[msg].sid]
  }

  /** The two ledgers say the same of every id below `next`. */
  ghost predicate SameBelow(was: Ledger, now: Ledger, next: nat) {
    forall id: nat :: id < next ==> (id in was <==> id in now) && (id in was ==> now[id] == was[id])
  }

  datatype Request = Request(
    clients: seq<string>, start: real, duration: real, draws: nat -> real, rules: map<string, RuleSpec>, maxFlows: int)

  const EXTERNAL: seq<string> := ["203.0.113.10", "198.51.100.20", "203.0.113.55", "198.51.100.77"]

  function Room(q: Request): nat { Clip(q.maxFlows) }

  /** The flows for one signature: as many as asked for while there is room, if the rule can be inverted. */
  method MakeFor(e: Entry, q: Request, w: World, before: seq<Flow>, next: nat, ghost was: Ledger)
    returns (flows: seq<Flow>, made: nat, i: nat, ghost ledger: Ledger)
    requires q.clients != [] && |before| <= Room(q)
    requires forall f :: f in before ==> f.flowId < next
    requires DistinctBy(before, ID)
    ensures |flows| == |before| + made <= Room(q)
    ensures made == if CanMake(q.rules, e.msg) then Min(Clip(e.count), Room(q) - |before|) else 0
    ensures before <= flows && next <= i
    ensures SameBelow(was, ledger, next) && AllFor(flows[|before|..], ledger, q.rules, e.msg, next, i)
    ensures DistinctBy(flows, ID)
  {
    hide Invert;
    hide Invertible;
    flows, made, i, ledger := before, 0, next, was;
    var n := 0;
    while n < e.count && |flows| < q.maxFlows
      invariant 0 <= n && (0 < n ==> n <= e.count) && next <= i
      invariant |flows| == |before| + made <= Room(q)
      invariant made == if CanMake(q.rules, e.msg) then n else 0
      invariant before <= flows
      invariant SameBelow(was, ledger, next) && AllFor(flows[|before|..], ledger, q.rules, e.msg, next, i)
      invariant forall f :: f in flows ==> f.flowId < i
      invariant DistinctBy(flows, ID)
    {
      var client := q.clients[i % |q.clients|];
      var dst := EXTERNAL[i % |EXTERNAL|];
      var t := q.start + (if q.duration != 0.0 then q.draws(i) * q.duration else 0.0);
      if e.msg in q.rules {
        var rule := q.rules[e.msg];
        InvertLabels(rule, w, client, dst, 1025 + i % 60000, t, i);
        var f := Invert(rule, w, client, dst, 1025 + i % 60000, t, i);
        if f.Some? {
          assert (flows + [f.value])[|before|..] == flows[|before|..] + [f.value];
          flows := flows + [f.value];
          made := made + 1;
          ledger := ledger[i := e.msg];
        }
      }
      i := i + 1;
      n := n + 1;
    }
  }

  // ---------------------------------------------------------------- no silent drop

  /** One signature's allotment: what it asks for, within what the signatures before it leave of the cap. */
  function Share(entries: seq<Entry>, k: nat, q: Request): nat
    requires k < |entries|
  {
    if !CanMake(q.rules, entries[k].msg) then 0
    else Min(Clip(entries[k].count), Room(q) - Min(Room(q), SumOf(entries[..k], Makeable(q.rules))))
  }

  /**
   Signature by signature: the flows made for it and what is reported as unmatched are what was asked
   for. Every flow was made for a requested signature, and nothing else is reported.
   */
  ghost predicate EachAccounted(
    entries: seq<Entry>, rules: map<string, RuleSpec>, flows: seq<Flow>, unmatched: map<string, int>, ledger: Ledger)
  {
    && (forall e :: e in entries ==> CountFor(flows, ledger, e.msg) + Get(unmatched, e.msg) == Clip(e.count))
    && (forall f :: f in flows ==> MadeFor(f, ledger, entries, rules))
    && unmatched.Keys <= Names(entries)
    && forall msg :: msg in unmatched ==> unmatched[msg] > 0
  }

  /** Per SID and in total, made plus unmatched is what was asked for. */
  ghost predicate Accounted(
    entries: seq<Entry>, rules: map<string, RuleSpec>, flows: seq<Flow>, unmatched: map<string, int>)
  {
    && (forall sid :: CountSid(flows, sid) + SumOf(entries, ForSid(rules, sid, Missing(unmatched)))
                   == SumOf(entries, ForSid(rules, sid, WANTED)))
    && |flows| + SumOf(entries, Missing(unmatched)) == SumOf(entries, WANTED)
  }

  function Made(flows: seq<Flow>, ledger: Ledger): Entry -> int {
    (e: Entry) => CountFor(flows, ledger, e.msg)
  }

  lemma {:induction false} SumAdds(entries: seq<Entry>, f: Entry -> int, g: Entry -> int, h: Entry -> int)
    requires forall e :: e in entries ==> f(e) + g(e) == h(e)
    ensures SumOf(entries, f) + SumOf(entries, g) == SumOf(entries, h)
  {
    if entries != [] {
      SumAdds(entries[1..], f, g, h);
    }
  }

  /** Raising one signature's term raises the sum as much, when the signature is there, and it is there once. */
  lemma {:induction false} SumBump(entries: seq<Entry>, f: Entry -> int, g: Entry -> int, msg: string, d: int)
    requires DistinctBy(entries, MSG)
    requires forall e :: e in entries ==> g(e) == f(e) + (if e.msg == msg then d else 0)
    ensures SumOf(entries, g) == SumOf(entries, f) + (if msg in Names(entries) then d else 0)
  {
    if entries != [] {
      assert entries == [entries[0]] + entries[1..];
      SumBump(entries[1..], f, g, msg, d);
      assert forall k :: 1 <= k < |entries| ==> MSG(entries[0]) != MSG(entries[k]);
      assert entries[0].msg == msg ==> msg !in Names(entries[1..]);
    }
  }

  lemma MadeSnoc(flows: seq<Flow>, f: Flow, ledger: Ledger, msg: string)
    requires f.flowId in ledger
    ensures CountFor(flows + [f], ledger, msg)
         == CountFor(flows, ledger, msg) + (if ledger[f.flowId] == msg then 1 else 0)
  {
    CountConcat(flows, [f], Under(ledger, msg));
    CountAll([f], Under(ledger, msg));
  }

  /** Counting flows and counting per signature agree, for one SID and in all. */
  lemma {:induction false} CountedTwice(
    target: seq<Entry>, rules: map<string, RuleSpec>, flows: seq<Flow>, ledger: Ledger, sid: int)
    requires DistinctBy(target, MSG) && forall f :: f in flows ==> MadeFor(f, ledger, target, rules)
    ensures CountSid(flows, sid) == SumOf(target, ForSid(rules, sid, Made(flows, ledger)))
    ensures |flows| == SumOf(target, Made(flows, ledger))
  {
    hide SumOf;
    hide Invertible;
    hide CountIf;
    if flows == [] {
      CountAll([], HasSid(sid));
      forall e: Entry ensures Made([], ledger)(e) == 0 {
        CountAll([], Under(ledger, e.msg));
      }
      SumNone(target, Made([], ledger));
      SumNone(target, ForSid(rules, sid, Made([], ledger)));
    } else {
      var n := |flows| - 1;
      var before, f := flows[..n], flows[n];
      assert flows == before + [f];
      CountedTwice(target, rules, before, ledger, sid);
      assert MadeFor(f, ledger, target, rules);
      var msg := ledger[f.flowId];
      CountConcat(before, [f], HasSid(sid));
      CountAll([f], HasSid(sid));
      assert HasSid(sid)(f) <==> RuleHasSid(rules, msg, sid) by {
        assert [rules[msg].sid][0] == rules[msg].sid;
      }
      forall e: Entry ensures Made(flows, ledger)(e) == Made(before, ledger)(e) + (if e.msg == msg then 1 else 0) {
        MadeSnoc(before, f, ledger, e.msg);
      }
      SumBump(target, Made(before, ledger), Made(flows, ledger), msg, 1);
      SumBump(target, ForSid(rules, sid, Made(before, ledger)), ForSid(rules, sid, Made(flows, ledger)), msg,
              if RuleHasSid(rules, msg, sid) then 1 else 0);
    }
  }

  lemma {:induction false} SumNone(entries: seq<Entry>, f: Entry -> int)
    requires forall e :: f(e) == 0
    ensures SumOf(entries, f) == 0
  {
    if entries != [] {
      SumNone(entries[1..], f);
    }
  }

  /** The sums per SID and in total follow from the account of each signature. */
  lemma SumsFollow(
    target: seq<Entry>, rules: map<string, RuleSpec>, flows: seq<Flow>, unmatched: map<string, int>, ledger: Ledger)
    requires DistinctBy(target, MSG) && EachAccounted(target, rules, flows, unmatched, ledger)
    ensures Accounted(target, rules, flows, unmatched)
  {
    hide SumOf;
    hide CountSid;
    hide CountFor;
    hide CanMake;
    forall sid ensures CountSid(flows, sid) + SumOf(target, ForSid(rules, sid, Missing(unmatched)))
                    == SumOf(target, ForSid(rules, sid, WANTED))
    {
      CountedTwice(target, rules, flows, ledger, sid);
      SumAdds(target, ForSid(rules, sid, Made(flows, ledger)), ForSid(rules, sid, Missing(unmatched)),
              ForSid(rules, sid, WANTED));
    }
    CountedTwice(target, rules, flows, ledger, 0);
    SumAdds(target, Made(flows, ledger), Missing(unmatched), WANTED);
  }

  // ---------------------------------------------------------------- signature after signature

  /** Where the loop over the signatures stands after some prefix of them. */
  ghost predicate Progress(
    p: seq<Entry>, q: Request, flows: seq<Flow>, unmatched: map<string, int>, next: nat, ledger: Ledger)
  {
    && EachAccounted(p, q.rules, flows, unmatched, ledger)
    && (forall k :: 0 <= k < |p| ==> CountFor(flows, ledger, p[k].msg) == Share(p, k, q))
    && |flows| == Min(Room(q), SumOf(p, Makeable(q.rules)))
    && (forall f :: f in flows ==> f.flowId < next)
    && DistinctBy(flows, ID)
  }

  /** What one more signature does to the count of each. */
  lemma CountsMove(
    before: seq<Flow>, added: seq<Flow>, was: Ledger, ledger: Ledger, rules: map<string, RuleSpec>, own: string,
    next: nat, i: nat, msg: string)
    requires (forall f :: f in before ==> f.flowId < next) && SameBelow(was, ledger, next)
    requires AllFor(added, ledger, rules, own, next, i)
    ensures CountFor(before + added, ledger, msg) == CountFor(before, was, msg) + (if msg == own then |added| else 0)
  {
    hide CountIf;
    hide CanMake;
    CountConcat(before, added, Under(ledger, msg));
    CountSame(before, Under(ledger, msg), Under(was, msg));
    CountAll(added, Under(ledger, msg));
  }

  lemma NothingYet(p: seq<Entry>, flows: seq<Flow>, ledger: Ledger, rules: map<string, RuleSpec>, msg: string)
    requires (forall f :: f in flows ==> MadeFor(f, ledger, p, rules)) && msg !in Names(p)
    ensures CountFor(flows, ledger, msg) == 0
  {
    hide CanMake;
    CountAll(flows, Under(ledger, msg));
  }

  lemma StillMadeFor(
    p: seq<Entry>, e: Entry, before: seq<Flow>, added: seq<Flow>, was: Ledger, ledger: Ledger,
    rules: map<string, RuleSpec>, next: nat, i: nat)
    requires (forall f :: f in before ==> f.flowId < next) && SameBelow(was, ledger, next)
    requires AllFor(added, ledger, rules, e.msg, next, i)
    requires forall f :: f in before ==> MadeFor(f, was, p, rules)
    ensures Names(p + [e]) == Names(p) + {e.msg}
    ensures forall f :: f in before + added ==> MadeFor(f, ledger, p + [e], rules)
  {
    hide CanMake;
    var all := p + [e];
    assert e in all && forall x :: x in p ==> x in all;
    forall f | f in before + added ensures MadeFor(f, ledger, all, rules) {
      if f in before {
        assert MadeFor(f, was, p, rules);
      } else {
        assert f in added;
      }
    }
  }

  lemma ShareSnoc(p: seq<Entry>, e: Entry, q: Request, k: nat)
    requires k <= |p|
    ensures k < |p| ==> Share(p + [e], k, q) == Share(p, k, q)
    ensures k == |p| ==>
      var left := Room(q) - Min(Room(q), SumOf(p, Makeable(q.rules)));
      Share(p + [e], k, q) == if CanMake(q.rules, e.msg) then Min(Clip(e.count), left) else 0
  {
    hide SumOf;
    hide CanMake;
    assert (p + [e])[..k] == p[..k];
    assert p[..|p|] == p;
  }

  lemma RoomStep(p: seq<Entry>, e: Entry, q: Request, before: nat, made: nat)
    requires before == Min(Room(q), SumOf(p, Makeable(q.rules)))
    requires made == if CanMake(q.rules, e.msg) then Min(Clip(e.count), Room(q) - before) else 0
    ensures before + made == Min(Room(q), SumOf(p + [e], Makeable(q.rules)))
  {
    SumSnoc(p, e, Makeable(q.rules));
  }

  /** Accounts and shares after one more signature. */
  lemma AccountsStep(
    p: seq<Entry>, e: Entry, q: Request, before: seq<Flow>, added: seq<Flow>, unmatched: map<string, int>,
    was: Ledger, ledger: Ledger, next: nat, i: nat)
    requires Progress(p, q, before, unmatched, next, was) && e.msg !in Names(p)
    requires SameBelow(was, ledger, next) && AllFor(added, ledger, q.rules, e.msg, next, i)
    requires |added| == if CanMake(q.rules, e.msg) then Min(Clip(e.count), Room(q) - |before|) else 0
    ensures
      var now := if |added| < e.count then unmatched[e.msg := e.count - |added|] else unmatched;
      && EachAccounted(p + [e], q.rules, before + added, now, ledger)
      && forall k :: 0 <= k < |p + [e]| ==>
           CountFor(before + added, ledger, (p + [e])[k].msg) == Share(p + [e], k, q)
  {
    hide CountFor;
    hide CanMake;
    hide SumOf;
    hide Share;
    hide AllFor;
    hide SameBelow;
    var flows, all := before + added, p + [e];
    StillMadeFor(p, e, before, added, was, ledger, q.rules, next, i);
    NothingYet(p, before, was, q.rules, e.msg);
    forall msg
      ensures CountFor(flows, ledger, msg) == CountFor(before, was, msg) + (if msg == e.msg then |added| else 0)
    {
      CountsMove(before, added, was, ledger, q.rules, e.msg, next, i, msg);
    }
    forall k | 0 <= k < |all| ensures CountFor(flows, ledger, all[k].msg) == Share(all, k, q) {
      ShareSnoc(p, e, q, k);
      assert k < |p| ==> all[k] == p[k] && p[k] in p && p[k].msg != e.msg;
    }
  }

  method MakeNext(
    p: seq<Entry>, e: Entry, q: Request, w: World, before: seq<Flow>, was: map<string, int>, next: nat,
    ghost wasLedger: Ledger)
    returns (flows: seq<Flow>, unmatched: map<string, int>, i: nat, ghost ledger: Ledger)
    requires q.clients != [] && Progress(p, q, before, was, next, wasLedger) && e.msg !in Names(p)
    ensures Progress(p + [e], q, flows, unmatched, i, ledger)
  {
    hide EachAccounted;
    hide CountFor;
    hide Share;
    hide CanMake;
    hide SumOf;
    var made;
    flows, made, i, ledger := MakeFor(e, q, w, before, next, wasLedger);
    ghost var added := flows[|before|..];
    assert flows == before + added;
    AccountsStep(p, e, q, before, added, was, wasLedger, ledger, next, i);
    RoomStep(p, e, q, |before|, made);
    unmatched := if made < e.count then was[e.msg := e.count - made] else was;
    assert forall f :: f in flows ==> f in before || f in added;
  }

  /** All signatures in the given order. */
  method MakeAll(entries: seq<Entry>, q: Request, w: World)
    returns (flows: seq<Flow>, unmatched: map<string, int>, ghost next: nat, ghost ledger: Ledger)
    requires q.clients != [] && DistinctBy(entries, MSG)
    ensures Progress(entries, q, flows, unmatched, next, ledger)
  {
    flows, unmatched, ledger := [], map[], map[];
    var i := 0;
    assert Progress([], q, flows, unmatched, 0, ledger);
    hide Progress;
    for k := 0 to |entries|
      invariant Progress(entries[..k], q, flows, unmatched, i, ledger)
    {
      NewName(entries, k);
      assert entries[..k + 1] == entries[..k] + [entries[k]];
      flows, unmatched, i, ledger := MakeNext(entries[..k], entries[k], q, w, flows, unmatched, i, ledger);
    }
    assert entries[..|entries|] == entries;
    next := i;
  }

  lemma NewName(entries: seq<Entry>, k: nat)
    requires DistinctBy(entries, MSG) && k < |entries|
    ensures entries[k].msg !in Names(entries[..k])
  {
    assert forall j :: 0 <= j < k ==> MSG(entries[j]) != MSG(entries[k]);
  }

  lemma OrderedKeeps(target: seq<Entry>, nameRank: string -> real)
    requires DistinctBy(target, MSG)
    ensures DistinctBy(Ordered(target, nameRank), MSG)
    ensures forall e :: e in Ordered(target, nameRank) <==> e in target
    ensures Names(Ordered(target, nameRank)) == Names(target)
  {
    var byName := (e: Entry) => nameRank(e.msg);
    SortKeeps(target, MSG, byName);
    SortKeeps(StableSort(target, byName), MSG, DESCENDING);
  }

  /** Sorting the flows by time keeps every account, and the accounts do not depend on the order of the signatures. */
  lemma AccountsKept(
    entries: seq<Entry>, target: seq<Entry>, q: Request, unsorted: seq<Flow>, unmatched: map<string, int>, next: nat,
    ledger: Ledger)
    requires Progress(entries, q, unsorted, unmatched, next, ledger)
    requires Names(entries) == Names(target) && forall e :: e in entries <==> e in target
    ensures
      var flows := StableSort(unsorted, START);
      && EachAccounted(target, q.rules, flows, unmatched, ledger)
      && (forall k :: 0 <= k < |entries| ==> CountFor(flows, ledger, entries[k].msg) == Share(entries, k, q))
      && |flows| == |unsorted| && DistinctBy(flows, ID) && SortedBy(flows, START)
  {
    hide CanMake;
    hide SumOf;
    hide Share;
    hide StableSort;
    hide Names;
    hide CountIf;
    var flows := StableSort(unsorted, START);
    SortKeeps(unsorted, ID, START);
    SortSorted(unsorted, START);
    forall msg ensures CountFor(flows, ledger, msg) == CountFor(unsorted, ledger, msg) {
      SortCounts(unsorted, Under(ledger, msg));
    }
    forall f | f in flows ensures MadeFor(f, ledger, target, q.rules) {
      assert MadeFor(f, ledger, entries, q.rules);
    }
  }

  /**
   No silent drop. For each signature, what was made plus what is reported as unmatched is what was
   asked for, and hence also per SID and in total; nothing foreign is reported. In the order of the
   histogram each signature gets all it asks for while the cap lasts; every flow is labelled with the
   rule it was made for; ids are distinct and the flows are in time order.
   */
  method ConditionedFpFlows(target: seq<Entry>, q: Request, w: World, nameRank: string -> real)
    returns (flows: seq<Flow>, unmatched: map<string, int>, ghost ledger: Ledger)
    requires q.clients != [] && DistinctBy(target, MSG)
    ensures EachAccounted(target, q.rules, flows, unmatched, ledger)
    ensures Accounted(target, q.rules, flows, unmatched)
    ensures var order := Ordered(target, nameRank);
            forall k :: 0 <= k < |order| ==> CountFor(flows, ledger, order[k].msg) == Share(order, k, q)
    ensures |flows| == Min(Room(q), SumOf(target, Makeable(q.rules)))
    ensures DistinctBy(flows, ID)
    ensures SortedBy(flows, START)
  {
    hide CanMake;
    hide SumOf;
    hide CountFor;
    hide CountSid;
    hide Ordered;
    hide Share;
    OrderedKeeps(target, nameRank);
    ghost var next;
    flows, unmatched, next, ledger := MakeAll(Ordered(target, nameRank), q, w);
    AccountsKept(Ordered(target, nameRank), target, q, flows, unmatched, next, ledger);
    SumOrdered(target, nameRank, Makeable(q.rules));
    flows := StableSort(flows, START);
    SumsFollow(target, q.rules, flows, unmatched, ledger);
  }
}
