/** JA3 strings: printing, parsing, GREASE, and what `render_tls` declares for a requested string. */
module Ja3 {
  import opened Seqs

  // ---------------------------------------------------------------- GREASE

  /** `(v & 0x0F0F) == 0x0A0A and (v >> 8) == (v & 0xFF)`, in arithmetic. */
  predicate IsGrease(v: nat) {
    v % 16 == 10 && (v / 256) % 16 == 10 && v / 256 == v % 256
  }

  /** Exactly the sixteen values of section 2 of RFC 8701: 0x0A0A, 0x1A1A, ..., 0xFAFA. */
  lemma GreaseValues(v: nat)
    ensures IsGrease(v) <==> exists k :: 0 <= k < 16 && v == 0x0A0A + 0x1010 * k
  {
    if IsGrease(v) {
      var k := v % 256 / 16;
      assert v == 0x0A0A + 0x1010 * k;
    }
  }

  function NoGrease(values: seq<nat>): (r: seq<nat>)
    ensures |r| <= |values|
    ensures forall i :: 0 <= i < |r| ==> !IsGrease(r[i])
    ensures (|r| == |values| ==> r == values)
  {
    if values == [] then []
    else if IsGrease(values[0]) then NoGrease(values[1..])
    else [values[0]] + NoGrease(values[1..])
  }

  lemma {:induction false} NoGreaseId(values: seq<nat>)
    ensures NoGrease(values) == values <==> forall i :: 0 <= i < |values| ==> !IsGrease(values[i])
  {
    if values != [] {
      NoGreaseId(values[1..]);
      assert values == [values[0]] + values[1..];
      if forall i :: 0 <= i < |values| ==> !IsGrease(values[i]) {
        assert forall i :: 0 <= i < |values[1..]| ==> values[1..][i] == values[i + 1];
      }
    }
  }

  lemma {:induction false} NoGreaseConcat(a: seq<nat>, b: seq<nat>)
    ensures NoGrease(a + b) == NoGrease(a) + NoGrease(b)
  {
    if a == [] {
      assert a + b == b;
    } else {
      assert (a + b)[1..] == a[1..] + b;
      NoGreaseConcat(a[1..], b);
    }
  }

  // ---------------------------------------------------------------- decimals

  predicate IsDigit(c: char) { '0' <= c <= '9' }

  function DigitValue(c: char): nat
    requires IsDigit(c)
  {
    c as int - '0' as int
  }

  function Digit(n: nat): (c: char)
    requires n < 10
    ensures IsDigit(c) && DigitValue(c) == n
  {
    ('0' as int + n) as char
  }

  predicate AllDigits(s: string) {
    forall i :: 0 <= i < |s| ==> IsDigit(s[i])
  }

  /** Python's `str` of a nonnegative integer. */
  function Decimal(n: nat): (s: string)
    ensures s != [] && AllDigits(s)
  {
    if n < 10 then [Digit(n)] else Decimal(n / 10) + [Digit(n % 10)]
  }

  function Value(s: string): nat
    requires AllDigits(s)
  {
    if s == [] then 0 else 10 * Value(s[..|s| - 1]) + DigitValue(s[|s| - 1])
  }

  /** Python's `int` on digit strings; anything else is an error. */
  function ParseNat(s: string): Option<nat> {
    if s == [] || !AllDigits(s) then None else Some(Value(s))
  }

  /** No leading zero. */
  predicate CanonicalNat(s: string) {
    s != [] && AllDigits(s) && (s[0] == '0' ==> |s| == 1)
  }

  lemma {:induction false} DecimalValue(n: nat)
    ensures Value(Decimal(n)) == n && CanonicalNat(Decimal(n)) && (n > 0 ==> Decimal(n)[0] != '0')
  {
    if n < 10 {
      assert Decimal(n)[..0] == [];
    } else {
      DecimalValue(n / 10);
      var s := Decimal(n);
      assert s[..|s| - 1] == Decimal(n / 10);
    }
  }

  lemma TenAndDigit(high: nat, low: nat)
    requires low < 10
    ensures (10 * high + low) / 10 == high && (10 * high + low) % 10 == low
  {
  }

  lemma {:induction false} CanonicalPrints(s: string)
    requires CanonicalNat(s)
    ensures Decimal(Value(s)) == s
    ensures Value(s) == 0 ==> s == "0"
  {
    var n := |s| - 1;
    if n == 0 {
      assert s[..0] == [];
      assert s == [s[0]];
    } else {
      CanonicalPrints(s[..n]);
      var high, low := Value(s[..n]), DigitValue(s[n]);
      assert high > 0;
      TenAndDigit(high, low);
      assert s == s[..n] + [s[n]];
    }
  }

  // ---------------------------------------------------------------- separators

  /** Python's `sep.join(parts)`. */
  function Join(sep: char, parts: seq<string>): string {
    if parts == [] then ""
    else if |parts| == 1 then parts[0]
    else parts[0] + [sep] + Join(sep, parts[1..])
  }

  /** Python's `s.split(sep)`. */
  function Split(s: string, sep: char): (r: seq<string>)
    ensures r != []
  {
    if s == [] then [""]
    else
      var rest := Split(s[1..], sep);
      if s[0] == sep then [""] + rest else [[s[0]] + rest[0]] + rest[1..]
  }

  predicate Lacks(s: string, c: char) {
    c !in s
  }

  lemma {:induction false} SplitOne(s: string, sep: char)
    requires Lacks(s, sep)
    ensures Split(s, sep) == [s]
  {
    if s != [] {
      SplitOne(s[1..], sep);
      assert [s[0]] + s[1..] == s;
    }
  }

  lemma {:induction false} SplitCons(a: string, rest: string, sep: char)
    requires Lacks(a, sep)
    ensures Split(a + [sep] + rest, sep) == [a] + Split(rest, sep)
  {
    var s := a + [sep] + rest;
    if a == [] {
      assert s[1..] == rest;
    } else {
      SplitCons(a[1..], rest, sep);
      assert s[1..] == a[1..] + [sep] + rest;
      assert [a[0]] + a[1..] == a;
    }
  }

  lemma {:induction false} SplitJoin(sep: char, parts: seq<string>)
    requires parts != [] && forall i :: 0 <= i < |parts| ==> Lacks(parts[i], sep)
    ensures Split(Join(sep, parts), sep) == parts
  {
    if |parts| == 1 {
      SplitOne(parts[0], sep);
    } else {
      SplitJoin(sep, parts[1..]);
      SplitCons(parts[0], Join(sep, parts[1..]), sep);
    }
  }

  lemma {:induction false} JoinSplit(s: string, sep: char)
    ensures Join(sep, Split(s, sep)) == s
    ensures forall i :: 0 <= i < |Split(s, sep)| ==> Lacks(Split(s, sep)[i], sep)
  {
    if s != [] {
      JoinSplit(s[1..], sep);
      var rest := Split(s[1..], sep);
      if s[0] == sep {
        assert ([""] + rest)[1..] == rest;
        assert "" + [sep] + s[1..] == s;
      } else {
        assert ([[s[0]] + rest[0]] + rest[1..])[1..] == rest[1..];
        assert s == [s[0]] + s[1..];
        if |rest| > 1 {
          assert [s[0]] + (rest[0] + [sep] + Join(sep, rest[1..])) == ([s[0]] + rest[0]) + [sep] + Join(sep, rest[1..]);
        }
      }
    }
  }

  // ---------------------------------------------------------------- number lists

  function Decimals(values: seq<nat>): (r: seq<string>)
    ensures |r| == |values|
  {
    if values == [] then [] else [Decimal(values[0])] + Decimals(values[1..])
  }

  /** `_join`: dash-separated decimals without the GREASE values. */
  function PrintList(values: seq<nat>): string {
    Join('-', Decimals(NoGrease(values)))
  }

  /** The nonempty items of a dash-separated list. */
  function ParseItems(items: seq<string>): Option<seq<nat>> {
    if items == [] then Some([])
    else
      match ParseItems(items[1..])
      case None => None
      case Some(rest) =>
        if items[0] == "" then Some(rest)
        else
          match ParseNat(items[0])
          case None => None
          case Some(v) => Some([v] + rest)
  }

  function ParseList(s: string): Option<seq<nat>> {
    ParseItems(Split(s, '-'))
  }

  /** The whole list may be empty, but no item may; items are canonical and not GREASE. */
  predicate CanonicalList(s: string) {
    s == "" || forall i :: 0 <= i < |Split(s, '-')| ==>
                 CanonicalNat(Split(s, '-')[i]) && !IsGrease(Value(Split(s, '-')[i]))
  }

  lemma {:induction false} DecimalsParse(values: seq<nat>)
    ensures ParseItems(Decimals(values)) == Some(values)
    ensures forall i :: 0 <= i < |values| ==> Decimals(values)[i] == Decimal(values[i])
  {
    hide Decimal;
    if values != [] {
      DecimalsParse(values[1..]);
      DecimalValue(values[0]);
      assert Decimals(values)[1..] == Decimals(values[1..]);
      assert values == [values[0]] + values[1..];
    }
  }

  lemma DigitsLack(s: string, c: char)
    requires AllDigits(s) && !IsDigit(c)
    ensures Lacks(s, c)
  {
  }

  lemma {:induction false} JoinLacks(sep: char, parts: seq<string>, c: char)
    requires c != sep && forall i :: 0 <= i < |parts| ==> Lacks(parts[i], c)
    ensures Lacks(Join(sep, parts), c)
  {
    if |parts| > 1 {
      JoinLacks(sep, parts[1..], c);
    }
  }

  /** A printed list parses to the values printed, is canonical and holds no comma. */
  lemma PrintListParses(values: seq<nat>)
    ensures ParseList(PrintList(values)) == Some(NoGrease(values))
    ensures CanonicalList(PrintList(values)) && Lacks(PrintList(values), ',')
  {
    var vs := NoGrease(values);
    var parts := Decimals(vs);
    DecimalsParse(vs);
    forall i | 0 <= i < |parts|
      ensures Lacks(parts[i], '-') && Lacks(parts[i], ',') && CanonicalNat(parts[i]) && Value(parts[i]) == vs[i]
    {
      DecimalValue(vs[i]);
      DigitsLack(parts[i], '-');
      DigitsLack(parts[i], ',');
    }
    JoinLacks('-', parts, ',');
    if vs == [] {
      assert Split("", '-') == [""];
      assert ParseItems([""][1..]) == Some([]);
    } else {
      SplitJoin('-', parts);
    }
  }

  lemma {:induction false} CanonicalItems(items: seq<string>)
    requires forall i :: 0 <= i < |items| ==> CanonicalNat(items[i]) && !IsGrease(Value(items[i]))
    ensures ParseItems(items).Some?
    ensures NoGrease(ParseItems(items).value) == ParseItems(items).value
    ensures Decimals(ParseItems(items).value) == items
  {
    hide Decimal;
    if items != [] {
      CanonicalItems(items[1..]);
      CanonicalPrints(items[0]);
      var vs := ParseItems(items).value;
      assert vs == [Value(items[0])] + ParseItems(items[1..]).value;
      assert vs[1..] == ParseItems(items[1..]).value;
      assert items == [items[0]] + items[1..];
    }
  }

  /** A canonical list parses and prints back. */
  lemma CanonicalListPrints(s: string)
    requires CanonicalList(s)
    ensures ParseList(s).Some? && PrintList(ParseList(s).value) == s
  {
    if s == "" {
      assert Split("", '-') == [""];
      assert ParseItems([""][1..]) == Some([]);
      assert ParseList(s) == Some([]);
    } else {
      CanonicalItems(Split(s, '-'));
      JoinSplit(s, '-');
    }
  }

  // ---------------------------------------------------------------- JA3

  /** The TLS client profile a JA3 string is parsed into. */
  datatype Profile = Profile(
    version: nat, ciphers: seq<nat>, extensions: seq<nat>, curves: seq<nat>, pointFormats: seq<nat>)

  function Ja3String(p: Profile): string {
    Join(',', [Decimal(p.version), PrintList(p.ciphers), PrintList(p.extensions), PrintList(p.curves),
               PrintList(p.pointFormats)])
  }

  function ParseJa3(s: string): Option<Profile> {
    var parts := Split(s, ',');
    if |parts| != 5 then None
    else
      match (ParseNat(parts[0]), ParseList(parts[1]), ParseList(parts[2]), ParseList(parts[3]), ParseList(parts[4]))
      case (Some(v), Some(a), Some(b), Some(c), Some(d)) => Some(Profile(v, a, b, c, d))
      case _ => None
  }

  /** The profile with every GREASE value dropped. */
  function Degreased(p: Profile): Profile {
    Profile(p.version, NoGrease(p.ciphers), NoGrease(p.extensions), NoGrease(p.curves), NoGrease(p.pointFormats))
  }

  predicate CanonicalJa3(s: string) {
    var parts := Split(s, ',');
    |parts| == 5 && CanonicalNat(parts[0]) && forall i :: 1 <= i < 5 ==> CanonicalList(parts[i])
  }

  function Fields(p: Profile): seq<string> {
    [Decimal(p.version), PrintList(p.ciphers), PrintList(p.extensions), PrintList(p.curves), PrintList(p.pointFormats)]
  }

  lemma FieldsSplit(p: Profile)
    ensures Split(Ja3String(p), ',') == Fields(p)
  {
    PrintListParses(p.ciphers);
    PrintListParses(p.extensions);
    PrintListParses(p.curves);
    PrintListParses(p.pointFormats);
    DigitsLack(Decimal(p.version), ',');
    hide PrintList;
    hide Decimal;
    SplitJoin(',', Fields(p));
  }

  /** Parsing a printed JA3 gives the lists with GREASE removed; what is printed is canonical. */
  lemma PrintedParses(p: Profile)
    ensures ParseJa3(Ja3String(p)) == Some(Degreased(p))
    ensures CanonicalJa3(Ja3String(p))
  {
    FieldsSplit(p);
    PrintListParses(p.ciphers);
    PrintListParses(p.extensions);
    PrintListParses(p.curves);
    PrintListParses(p.pointFormats);
    DecimalValue(p.version);
    hide PrintList;
    hide Decimal;
    hide Ja3String;
    hide ParseList;
    hide CanonicalList;
  }

  /** Printing a parsed string gives it back exactly when it was canonical and free of GREASE. */
  lemma {:induction false} ParsedPrints(s: string)
    requires ParseJa3(s).Some?
    ensures Ja3String(ParseJa3(s).value) == s <==> CanonicalJa3(s)
  {
    PrintedParses(ParseJa3(s).value);
    if CanonicalJa3(s) {
      CanonicalJa3Prints(s);
    }
  }

  lemma CanonicalJa3Prints(s: string)
    requires ParseJa3(s).Some? && CanonicalJa3(s)
    ensures Ja3String(ParseJa3(s).value) == s
  {
    hide Split;
    hide Join;
    hide Decimal;
    hide Value;
    var parts := Split(s, ',');
    CanonicalPrints(parts[0]);
    CanonicalListPrints(parts[1]);
    CanonicalListPrints(parts[2]);
    CanonicalListPrints(parts[3]);
    CanonicalListPrints(parts[4]);
    JoinSplit(s, ',');
    assert parts == [parts[0], parts[1], parts[2], parts[3], parts[4]];
  }

  // ---------------------------------------------------------------- through the TLS renderer

  const TLS13_CIPHERS: seq<nat> := [4865, 4866, 4867]
  const GREASE: nat := 0x0A0A

  /** The ClientHello's version and lists, whether or not the profile asks for GREASE. */
  method HelloLists(p: Profile, grease: bool, is13: bool, alpn: bool) returns (hello: Profile)
    ensures hello == HelloProfile(p, grease, is13, alpn)
  {
    var version := if is13 then 771 else p.version;
    var ciphers, extensions := p.ciphers, p.extensions;
    if is13 {
      ciphers := TLS13_CIPHERS + ciphers;
      extensions := extensions + [43, 51, 45];
    }
    if alpn && 16 !in extensions {
      extensions := extensions + [16];
    }
    if grease {
      ciphers := [GREASE] + ciphers;
      extensions := [GREASE] + extensions;
    }
    hello := Profile(version, ciphers, extensions, p.curves, p.pointFormats);
  }

  function AddedExtensions(p: Profile, is13: bool, alpn: bool): seq<nat> {
    var base := if is13 then [43, 51, 45] else [];
    base + (if alpn && 16 !in p.extensions + base then [16] else [])
  }

  function HelloProfile(p: Profile, grease: bool, is13: bool, alpn: bool): Profile {
    var front: seq<nat> := if grease then [GREASE] else [];
    Profile(if is13 then 771 else p.version,
            front + ((if is13 then TLS13_CIPHERS else []) + p.ciphers),
            front + (p.extensions + AddedExtensions(p, is13, alpn)),
            p.curves, p.pointFormats)
  }

  /** A GREASE-sending profile declares the same fingerprint as the same profile without GREASE. */
  lemma GreaseInvisible(p: Profile, is13: bool, alpn: bool)
    ensures Ja3String(HelloProfile(p, true, is13, alpn)) == Ja3String(HelloProfile(p, false, is13, alpn))
  {
    hide PrintList;
    hide Decimal;
    hide AddedExtensions;
    hide NoGrease;
    var base := HelloProfile(p, false, is13, alpn);
    var grease := HelloProfile(p, true, is13, alpn);
    assert base.ciphers == (if is13 then TLS13_CIPHERS else []) + p.ciphers;
    assert base.extensions == p.extensions + AddedExtensions(p, is13, alpn);
    FrontGrease(base.ciphers);
    FrontGrease(base.extensions);
    assert grease.ciphers == [GREASE] + base.ciphers && grease.extensions == [GREASE] + base.extensions;
  }

  lemma FrontGrease(xs: seq<nat>)
    ensures PrintList([GREASE] + xs) == PrintList(xs)
  {
    assert ([GREASE] + xs)[1..] == xs;
  }

  lemma NoGreaseAdded(xs: seq<nat>, front: seq<nat>, back: seq<nat>)
    requires NoGrease(front + (xs + back)) == xs
    requires NoGrease(front) == front && NoGrease(back) == back
    ensures front == [] && back == []
  {
    NoGreaseConcat(front, xs + back);
    NoGreaseConcat(xs, back);
    NoGreaseId(xs);
  }

  /**
   The declared fingerprint is the requested string exactly for TLS 1.2, a canonical GREASE-free
   string, and no ALPN extension that had to be added.
   */
  lemma DeclaredIsRequested(s: string, is13: bool, alpn: bool)
    requires ParseJa3(s).Some?
    ensures Ja3String(HelloProfile(ParseJa3(s).value, false, is13, alpn)) == s <==>
            !is13 && CanonicalJa3(s) && (alpn ==> 16 in ParseJa3(s).value.extensions)
  {
    var p := ParseJa3(s).value;
    var h := HelloProfile(p, false, is13, alpn);
    hide ParseJa3;
    hide CanonicalJa3;
    hide Ja3String;
    hide HelloProfile;
    hide Degreased;
    ParsedPrints(s);
    PrintedParses(h);
    if Ja3String(h) == s {
      HelloAddsNothing(p, is13, alpn);
    }
    if !is13 && (alpn ==> 16 in p.extensions) {
      HelloUnchanged(p, is13, alpn);
    }
  }

  /** If the hello prints as the requested profile, the renderer added nothing to it. */
  lemma HelloAddsNothing(p: Profile, is13: bool, alpn: bool)
    requires Degreased(HelloProfile(p, false, is13, alpn)) == p
    ensures !is13 && (alpn ==> 16 in p.extensions)
  {
    hide NoGrease;
    var added := AddedExtensions(p, is13, alpn);
    NoGreaseId(added);
    assert [] + (p.extensions + added) == p.extensions + added;
    NoGreaseAdded(p.extensions, [], added);
  }

  lemma HelloUnchanged(p: Profile, is13: bool, alpn: bool)
    requires !is13 && (alpn ==> 16 in p.extensions)
    ensures HelloProfile(p, false, is13, alpn) == p
  {
    assert p.extensions + [] == p.extensions && p.ciphers + [] == p.ciphers;
    assert [] + p.ciphers == p.ciphers && [] + p.extensions == p.extensions;
  }
}
