/** `_segment`: a payload cut into segments of at most `mss` bytes, then split further on request. */
module Segmentation {
  import opened Numbers
  import opened Seqs
  import opened Bytes

  /** The slices `payload[i : i + mss]` for `i` in `range(0, len(payload), mss)`; a negative step yields none. */
  function Chop(payload: bytes, mss: int): seq<bytes>
    requires mss != 0
    decreases |payload|
  {
    if payload == [] || mss < 0 then []
    else if |payload| <= mss then [payload]
    else [payload[..mss]] + Chop(payload[mss..], mss)
  }

  /** Index of the first longest chunk among the first `n`. */
  function Biggest(chunks: seq<bytes>, n: nat): (k: nat)
    requires 0 < n <= |chunks|
    ensures k < n && forall i :: 0 <= i < n ==> |chunks[i]| <= |chunks[k]|
  {
    if n == 1 then 0
    else
      var k := Biggest(chunks, n - 1);
      if |chunks[n - 1]| > |chunks[k]| then n - 1 else k
  }

  predicate Splittable(chunks: seq<bytes>) {
    exists c :: c in chunks && |c| > 1
  }

  function Halve(c: bytes): seq<bytes> {
    var half := if |c| / 2 < 1 then 1 else |c| / 2;
    if |c| < half then [c, []] else [c[..half], c[half..]]
  }

  function SplitBiggest(chunks: seq<bytes>): (r: seq<bytes>)
    requires chunks != []
    ensures |r| == |chunks| + 1
  {
    var b := Biggest(chunks, |chunks|);
    chunks[..b] + Halve(chunks[b]) + chunks[b + 1..]
  }

  /** What the splitting loop leaves. */
  function Refine(chunks: seq<bytes>, minSegments: int): seq<bytes>
    decreases minSegments - |chunks|
  {
    if |chunks| < minSegments && Splittable(chunks)
    then Refine(SplitBiggest(chunks), minSegments)
    else chunks
  }

  function Segment(payload: bytes, mss: int, minSegments: int): seq<bytes>
    requires mss != 0
  {
    Refine(Chop(payload, mss), minSegments)
  }

  /** The source's routine: chop, then splice the longest chunk into two halves while more are wanted. */
  method SegmentPayload(payload: bytes, mss: int, minSegments: int) returns (chunks: seq<bytes>)
    requires mss != 0
    ensures chunks == Segment(payload, mss, minSegments)
  {
    if payload == [] {
      return [];
    }
    chunks := Chop(payload, mss);
    while |chunks| < minSegments && Splittable(chunks)
      invariant Refine(chunks, minSegments) == Segment(payload, mss, minSegments)
      decreases minSegments - |chunks|
    {
      var b := Biggest(chunks, |chunks|);
      chunks := chunks[..b] + Halve(chunks[b]) + chunks[b + 1..];
    }
  }

  // ---------------------------------------------------------------- contract

  /** Every chunk is a nonempty piece of at most `mss` bytes. */
  predicate Pieces(chunks: seq<bytes>, mss: int) {
    forall i :: 0 <= i < |chunks| ==> 0 < |chunks[i]| <= mss
  }

  function CeilDiv(a: nat, b: int): int
    requires b > 0
  {
    (a + b - 1) / b
  }

  lemma {:induction false} CeilDivStep(a: nat, b: int)
    requires 0 < b < a
    ensures CeilDiv(a, b) == 1 + CeilDiv(a - b, b)
  {
    var x := a - 1;
    var q, m := x / b, x % b;
    assert x == b * q + m;
    assert x + b == b * (q + 1) + m;
    QuotientUnique(x + b, b, q + 1, m);
  }

  lemma {:induction false} QuotientUnique(x: int, b: int, q: int, m: int)
    requires b > 0 && 0 <= m < b && x == b * q + m
    ensures x / b == q
  {
    var d := x / b - q;
    assert b * d == m - x % b;
    assert d >= 1 ==> b * d >= b;
    assert d <= -1 ==> b * d <= -b;
  }

  lemma SmallCeil(a: nat, b: int)
    requires 0 < a <= b
    ensures CeilDiv(a, b) == 1
  {
    QuotientUnique(a + b - 1, b, 1, a - 1);
  }

  lemma {:induction false} ChopPieces(payload: bytes, mss: int)
    requires mss > 0
    ensures Flatten(Chop(payload, mss)) == payload
    ensures Pieces(Chop(payload, mss), mss)
    ensures |Chop(payload, mss)| == CeilDiv(|payload|, mss)
    decreases |payload|
  {
    if payload == [] {
      QuotientUnique(mss - 1, mss, 0, mss - 1);
    } else if |payload| <= mss {
      FlattenOne(payload);
      SmallCeil(|payload|, mss);
    } else {
      ChopPieces(payload[mss..], mss);
      var rest := Chop(payload[mss..], mss);
      assert Chop(payload, mss)[1..] == rest;
      assert payload == payload[..mss] + payload[mss..];
      CeilDivStep(|payload|, mss);
    }
  }

  lemma {:induction false} PieceCount(chunks: seq<bytes>, mss: int)
    requires Pieces(chunks, mss)
    ensures |chunks| <= |Flatten(chunks)|
    ensures !Splittable(chunks) ==> |chunks| == |Flatten(chunks)|
  {
    if chunks != [] {
      PieceCount(chunks[1..], mss);
      assert chunks[0] in chunks;
      assert forall c :: c in chunks[1..] ==> c in chunks;
    }
  }

  lemma FlattenHalves(c: bytes)
    requires |c| > 1
    ensures Pieces(Halve(c), |c|) && Flatten(Halve(c)) == c
  {
    var halves := Halve(c);
    assert halves == [halves[0]] + [halves[1]];
    FlattenConcat([halves[0]], [halves[1]]);
    FlattenOne(halves[0]);
    FlattenOne(halves[1]);
    assert halves[0] + halves[1] == c;
  }

  lemma FlattenSplice(before: seq<bytes>, middle: seq<bytes>, after: seq<bytes>)
    ensures Flatten(before + middle + after) == Flatten(before) + Flatten(middle) + Flatten(after)
  {
    FlattenConcat(before, middle);
    FlattenConcat(before + middle, after);
  }

  lemma SplitKeeps(chunks: seq<bytes>, mss: int)
    requires Pieces(chunks, mss) && Splittable(chunks)
    ensures Pieces(SplitBiggest(chunks), mss)
    ensures Flatten(SplitBiggest(chunks)) == Flatten(chunks)
  {
    hide Halve;
    hide Flatten;
    var b := Biggest(chunks, |chunks|);
    var c := chunks[b];
    assert |c| > 1;
    FlattenHalves(c);
    FlattenSplice(chunks[..b], Halve(c), chunks[b + 1..]);
    FlattenSplice(chunks[..b], [c], chunks[b + 1..]);
    FlattenOne(c);
    assert chunks == chunks[..b] + [c] + chunks[b + 1..];
  }

  lemma {:induction false} RefineKeeps(chunks: seq<bytes>, mss: int, minSegments: int)
    requires Pieces(chunks, mss)
    ensures var r := Refine(chunks, minSegments);
            && Flatten(r) == Flatten(chunks)
            && Pieces(r, mss)
            && |r| == Max(|chunks|, Min(minSegments, |Flatten(chunks)|))
    decreases minSegments - |chunks|
  {
    PieceCount(chunks, mss);
    if |chunks| < minSegments && Splittable(chunks) {
      SplitKeeps(chunks, mss);
      PieceCount(SplitBiggest(chunks), mss);
      RefineKeeps(SplitBiggest(chunks), mss, minSegments);
    }
  }

  /** The segmentation contract, with the exact number of segments. */
  lemma SegmentContract(payload: bytes, mss: int, minSegments: int)
    requires mss > 0
    ensures var r := Segment(payload, mss, minSegments);
            && Flatten(r) == payload
            && Pieces(r, mss)
            && |r| == Max(CeilDiv(|payload|, mss), Min(minSegments, |payload|))
  {
    ChopPieces(payload, mss);
    RefineKeeps(Chop(payload, mss), mss, minSegments);
  }

  /** A negative segment size silently drops the payload: it survives exactly when the size is positive. */
  lemma SegmentLossless(payload: bytes, mss: int, minSegments: int)
    requires mss != 0
    ensures Flatten(Segment(payload, mss, minSegments)) == payload <==> mss > 0 || payload == []
  {
    if mss > 0 {
      SegmentContract(payload, mss, minSegments);
    }
  }
}
