/** The JPEG marker scanner of infra/f0e/runner.py (sections B.1.1.2 to B.1.1.4 and B.2.2 of
    ITU-T T.81).

    IsJpegFrame is the grammar: which byte strings begin with an image of a given size.
    ScanIffFrame says that the scanner accepts exactly those, with that size. */
module Jpeg {
  import opened Bytes

  datatype Size = Size(width: nat, height: nat)

  datatype Result = Found(size: Size) | HeaderInvalid

  // ---------- the grammar ----------

  predicate IsStandalone(marker: byte) {
    marker == 0xD8 || marker == 0xD9 || marker == 0x01 || 0xD0 <= marker <= 0xD7
  }

  predicate IsFrameHeader(marker: byte) {
    0xC0 <= marker <= 0xCF && marker != 0xC4 && marker != 0xC8 && marker != 0xCC
  }

  const START_OF_SCAN: byte := 0xDA

  /** A marker behind one or more fill bytes, alone or with a parameter segment. */
  datatype Segment =
    | Standalone(fill: nat, marker: byte)
    | Sized(fill: nat, marker: byte, body: bytes)

  predicate ValidSegment(s: Segment) {
    s.fill >= 1
    && match s
       case Standalone(_, marker) => IsStandalone(marker)
       case Sized(_, marker, body) =>
         !IsStandalone(marker) && marker != 0xFF && |body| + 2 < 0x1_0000
  }

  /** A segment that may stand before the frame header: neither a frame nor a scan. */
  predicate ValidPrefixSegment(s: Segment) {
    ValidSegment(s) && !IsFrameHeader(s.marker) && s.marker != START_OF_SCAN
  }

  /** A frame header: precision, height, width, then whatever else its length covers. */
  predicate ValidFrame(s: Segment, size: Size) {
    && ValidSegment(s) && s.Sized? && IsFrameHeader(s.marker) && |s.body| >= 6
    && size.height == FromBigEndian(s.body[1..3]) && size.width == FromBigEndian(s.body[3..5])
    && size.height >= 1 && size.width >= 1
  }

  function Fill(n: nat): (b: bytes)
    ensures |b| == n
  {
    seq(n, _ => 0xFF)
  }

  function Bytes2(n: nat): (b: bytes)
    requires n < 0x1_0000
    ensures |b| == 2
  {
    [n / 256, n % 256]
  }

  function SegmentBytes(s: Segment): (b: bytes)
    requires ValidSegment(s)
    ensures |b| >= 2
  {
    match s
    case Standalone(fill, marker) => Fill(fill) + [marker]
    case Sized(fill, marker, body) => Fill(fill) + [marker] + (Bytes2(|body| + 2) + body)
  }

  predicate ValidPrefix(segments: seq<Segment>) {
    forall i :: 0 <= i < |segments| ==> ValidPrefixSegment(segments[i])
  }

  function PrefixBytes(segments: seq<Segment>): bytes
    requires ValidPrefix(segments)
  {
    if segments == [] then [] else SegmentBytes(segments[0]) + PrefixBytes(segments[1..])
  }

  ghost predicate Decomposes(s: bytes, segments: seq<Segment>, frame: Segment, tail: bytes, size: Size) {
    && ValidPrefix(segments) && ValidFrame(frame, size)
    && s == PrefixBytes(segments) + SegmentBytes(frame) + tail
  }

  /** A start of image, segments that are no frame and no scan, a frame header of that size. */
  ghost predicate IsJpegFrame(source: bytes, size: Size) {
    && |source| >= 2 && source[..2] == [0xFF, 0xD8]
    && exists segments, frame, tail :: Decomposes(source[2..], segments, frame, tail, size)
  }

  // ---------- the scanner as a function of what is left to scan ----------

  function SkipFill(s: bytes): (r: bytes)
    ensures |r| <= |s|
    ensures r != [] ==> r[0] != 0xFF
    ensures s != [] && s[0] == 0xFF ==> |r| < |s|
  {
    if s != [] && s[0] == 0xFF then SkipFill(s[1..]) else s
  }

  function ReadFrame(u: bytes, length: nat): Result
    requires 2 <= length <= |u|
  {
    if length < 8 then HeaderInvalid
    else
      var size := Size(FromBigEndian(u[5..7]), FromBigEndian(u[3..5]));
      if size.width < 1 || size.height < 1 then HeaderInvalid else Found(size)
  }

  /** One turn of the scanner: it ends, or goes on with fewer bytes. */
  datatype Turn = Stop(result: Result) | Continue(rest: bytes)

  function TurnAtMarker(marker: byte, u: bytes): (t: Turn)
    ensures t.Continue? ==> |t.rest| <= |u|
  {
    if IsStandalone(marker) then Continue(u)
    else if |u| < 2 then Stop(HeaderInvalid)
    else
      var length := FromBigEndian(u[..2]);
      if length < 2 || length > |u| then Stop(HeaderInvalid)
      else if IsFrameHeader(marker) then Stop(ReadFrame(u, length))
      else if marker == START_OF_SCAN then Stop(HeaderInvalid)
      else Continue(u[length..])
  }

  function TakeTurn(s: bytes): (t: Turn)
    ensures t.Continue? ==> |t.rest| < |s|
  {
    if s == [] || s[0] != 0xFF then Stop(HeaderInvalid)
    else
      var t := SkipFill(s);
      if t == [] then Stop(HeaderInvalid) else TurnAtMarker(t[0], t[1..])
  }

  function Scan(s: bytes): Result
    decreases |s|
  {
    match TakeTurn(s)
    case Stop(result) => result
    case Continue(rest) => Scan(rest)
  }

  function Dimensions(source: bytes): Result {
    if |source| < 4 || source[..2] != [0xFF, 0xD8] then HeaderInvalid else Scan(source[2..])
  }

  // ---------- the scanner accepts every decomposition ----------

  lemma {:induction false} SkipFillBytes(n: nat, rest: bytes)
    requires rest != [] ==> rest[0] != 0xFF
    ensures SkipFill(Fill(n) + rest) == rest
  {
    if n == 0 {
      assert Fill(0) + rest == rest;
    } else {
      assert (Fill(n) + rest)[1..] == Fill(n - 1) + rest;
      SkipFillBytes(n - 1, rest);
    }
  }

  lemma {:induction false} Bytes2RoundTrip(n: nat)
    requires n < 0x1_0000
    ensures FromBigEndian(Bytes2(n)) == n
  {
    var b := Bytes2(n);
    assert b[..1][..0] == [] && b[..1][0] == n / 256 && b[1] == n % 256;
    assert FromBigEndian(b[..1]) == n / 256;
  }

  lemma {:induction false} FromBigEndian2(b: bytes)
    requires |b| == 2
    ensures FromBigEndian(b) < 0x1_0000 && Bytes2(FromBigEndian(b)) == b
  {
    assert b[..1][..0] == [];
    assert FromBigEndian(b[..1]) == b[0];
  }

  /** What the scanner sees behind the marker of a segment. */
  lemma {:induction false} ScanSized(s: Segment, rest: bytes)
    requires ValidSegment(s) && s.Sized?
    ensures var u := Bytes2(|s.body| + 2) + s.body + rest;
      && SkipFill(SegmentBytes(s) + rest) == [s.marker] + u
      && FromBigEndian(u[..2]) == |s.body| + 2 && u[|s.body| + 2..] == rest
      && u[2..|s.body| + 2] == s.body
      && SegmentBytes(s)[0] == 0xFF
  {
    var u := Bytes2(|s.body| + 2) + s.body + rest;
    Bytes2RoundTrip(|s.body| + 2);
    assert u[..2] == Bytes2(|s.body| + 2);
    SkipFillBytes(s.fill, [s.marker] + u);
    assert SegmentBytes(s) + rest == Fill(s.fill) + ([s.marker] + u);
  }

  lemma {:induction false} TurnAtPrefixSegment(s: Segment, rest: bytes)
    requires ValidPrefixSegment(s)
    ensures TakeTurn(SegmentBytes(s) + rest) == Continue(rest)
  {
    if s.Standalone? {
      SkipFillBytes(s.fill, [s.marker] + rest);
      assert SegmentBytes(s) + rest == Fill(s.fill) + ([s.marker] + rest);
      assert ([s.marker] + rest)[1..] == rest;
    } else {
      ScanSized(s, rest);
      var u := Bytes2(|s.body| + 2) + s.body + rest;
      assert ([s.marker] + u)[1..] == u;
    }
  }

  lemma {:induction false} TurnAtFrame(s: Segment, rest: bytes, size: Size)
    requires ValidFrame(s, size)
    ensures TakeTurn(SegmentBytes(s) + rest) == Stop(Found(size))
  {
    ScanSized(s, rest);
    var u := Bytes2(|s.body| + 2) + s.body + rest;
    assert ([s.marker] + u)[1..] == u;
    assert u[3..5] == s.body[1..3] && u[5..7] == s.body[3..5];
  }

  lemma {:induction false} ScanComplete(segments: seq<Segment>, frame: Segment, tail: bytes, size: Size)
    requires ValidPrefix(segments) && ValidFrame(frame, size)
    ensures Scan(PrefixBytes(segments) + (SegmentBytes(frame) + tail)) == Found(size)
    decreases |segments|
  {
    var end := SegmentBytes(frame) + tail;
    if segments == [] {
      assert PrefixBytes(segments) + end == end;
      TurnAtFrame(frame, tail, size);
    } else {
      var rest := PrefixBytes(segments[1..]) + end;
      ScanComplete(segments[1..], frame, tail, size);
      TurnAtPrefixSegment(segments[0], rest);
      Associate(SegmentBytes(segments[0]), PrefixBytes(segments[1..]), end);
    }
  }

  lemma {:induction false} Associate<T>(a: seq<T>, b: seq<T>, c: seq<T>)
    ensures a + b + c == a + (b + c)
  {
  }

  // ---------- what the scanner accepts decomposes ----------

  lemma {:induction false} SkipFillSplits(s: bytes)
    ensures s == Fill(|s| - |SkipFill(s)|) + SkipFill(s)
  {
    if s != [] && s[0] == 0xFF {
      SkipFillSplits(s[1..]);
      var n := |s[1..]| - |SkipFill(s)|;
      assert Fill(n + 1) == [0xFF] + Fill(n);
      assert s == [0xFF] + s[1..];
    }
  }

  /** The sized segment that the scanner has just read, and the rest. */
  lemma {:induction false} SizedSegment(s: bytes) returns (segment: Segment, rest: bytes)
    requires s != [] && s[0] == 0xFF
    requires SkipFill(s) != [] && !IsStandalone(SkipFill(s)[0]) && |SkipFill(s)| >= 3
    requires 2 <= FromBigEndian(SkipFill(s)[1..][..2]) <= |SkipFill(s)[1..]|
    ensures ValidSegment(segment) && segment.Sized? && segment.marker == SkipFill(s)[0]
    ensures s == SegmentBytes(segment) + rest
    ensures segment.body == SkipFill(s)[1..][2..FromBigEndian(SkipFill(s)[1..][..2])]
    ensures rest == SkipFill(s)[1..][FromBigEndian(SkipFill(s)[1..][..2])..]
  {
    var t := SkipFill(s);
    var u := t[1..];
    var length := FromBigEndian(u[..2]);
    FromBigEndian2(u[..2]);
    SkipFillSplits(s);
    segment := Sized(|s| - |t|, t[0], u[2..length]);
    rest := u[length..];
    assert u == u[..2] + u[2..length] + rest;
    assert t == [t[0]] + u;
    assert s == Fill(segment.fill) + [t[0]] + (u[..2] + u[2..length]) + rest;
  }

  /** A turn that goes on has read one segment that may stand before the frame header. */
  lemma {:induction false} ContinueReadsSegment(s: bytes) returns (segment: Segment)
    requires TakeTurn(s).Continue?
    ensures ValidPrefixSegment(segment) && s == SegmentBytes(segment) + TakeTurn(s).rest
  {
    var t := SkipFill(s);
    if IsStandalone(t[0]) {
      SkipFillSplits(s);
      segment := Standalone(|s| - |t|, t[0]);
      assert t == [t[0]] + t[1..];
    } else {
      var rest;
      segment, rest := SizedSegment(s);
    }
  }

  /** A turn that finds a size has read a frame header with that size. */
  lemma {:induction false} FoundReadsFrame(s: bytes) returns (frame: Segment, tail: bytes)
    requires TakeTurn(s).Stop? && TakeTurn(s).result.Found?
    ensures ValidFrame(frame, TakeTurn(s).result.size) && s == SegmentBytes(frame) + tail
  {
    var u := SkipFill(s)[1..];
    frame, tail := SizedSegment(s);
    assert frame.body[1..3] == u[3..5] && frame.body[3..5] == u[5..7];
  }

  lemma {:induction false} ScanSound(s: bytes)
    returns (segments: seq<Segment>, frame: Segment, tail: bytes)
    requires Scan(s).Found?
    ensures Decomposes(s, segments, frame, tail, Scan(s).size)
    decreases |s|
  {
    match TakeTurn(s)
    case Stop(result) =>
      frame, tail := FoundReadsFrame(s);
      segments := [];
      assert PrefixBytes(segments) + SegmentBytes(frame) + tail == SegmentBytes(frame) + tail;
    case Continue(rest) =>
      var first := ContinueReadsSegment(s);
      segments, frame, tail := ScanSound(rest);
      segments := ConsDecomposition(first, rest, segments, frame, tail, Scan(rest).size);
  }

  lemma {:induction false} ConsDecomposition(first: Segment, rest: bytes, segments: seq<Segment>, frame: Segment,
                          tail: bytes, size: Size) returns (all: seq<Segment>)
    requires ValidPrefixSegment(first) && Decomposes(rest, segments, frame, tail, size)
    ensures Decomposes(SegmentBytes(first) + rest, all, frame, tail, size)
  {
    all := [first] + segments;
    assert all[1..] == segments;
    Associate(SegmentBytes(first), PrefixBytes(segments), SegmentBytes(frame) + tail);
    Associate(PrefixBytes(segments), SegmentBytes(frame), tail);
    Associate(PrefixBytes(all), SegmentBytes(frame), tail);
  }

  lemma {:induction false} DecompositionScans(s: bytes, segments: seq<Segment>, frame: Segment, tail: bytes, size: Size)
    requires Decomposes(s, segments, frame, tail, size)
    ensures Scan(s) == Found(size) && |s| >= 2
  {
    Associate(PrefixBytes(segments), SegmentBytes(frame), tail);
    ScanComplete(segments, frame, tail, size);
  }

  /** The scanner returns a size exactly when the grammar gives the bytes that size. */
  lemma {:induction false} ScanIffFrame(source: bytes, size: Size)
    ensures Dimensions(source) == Found(size) <==> IsJpegFrame(source, size)
  {
    if Dimensions(source) == Found(size) {
      var segments, frame, tail := ScanSound(source[2..]);
    }
    if IsJpegFrame(source, size) {
      var segments, frame, tail :| Decomposes(source[2..], segments, frame, tail, size);
      DecompositionScans(source[2..], segments, frame, tail, size);
    }
  }

  /** The grammar gives a byte string one size at most. */
  lemma {:induction false} FrameSizeUnique(source: bytes, size: Size, size': Size)
    requires IsJpegFrame(source, size) && IsJpegFrame(source, size')
    ensures size == size'
  {
    ScanIffFrame(source, size);
    ScanIffFrame(source, size');
  }

  /** Only the bytes up to the end of the frame header matter: with those kept, whatever
      follows, the scanner finds the same size. */
  lemma {:induction false} TailIgnored(source: bytes, size: Size) returns (end: nat)
    requires Dimensions(source) == Found(size)
    ensures 2 <= end <= |source|
    ensures forall other: bytes :: Dimensions(source[..end] + other) == Found(size)
  {
    var segments, frame, tail := ScanSound(source[2..]);
    end := |source| - |tail|;
    var image := PrefixBytes(segments) + SegmentBytes(frame);
    assert source[2..end] == image;
    forall other: bytes ensures Dimensions(source[..end] + other) == Found(size) {
      var s := source[..end] + other;
      assert s[..2] == source[..2];
      assert s[2..] == image + other;
      DecompositionScans(s[2..], segments, frame, other, size);
    }
  }

  // ---------- the scanner over positions ----------

  /** The inner loop: the first position at or after `position` that is not a fill byte. */
  method SkipFillAt(source: bytes, position: nat) returns (next: nat)
    requires position <= |source|
    ensures position <= next <= |source| && source[next..] == SkipFill(source[position..])
  {
    next := position;
    while next < |source| && source[next] == 0xFF
      invariant position <= next <= |source|
      invariant SkipFill(source[next..]) == SkipFill(source[position..])
    {
      assert source[next..][1..] == source[next + 1..];
      next := next + 1;
    }
  }

  /** The part of the loop body behind a marker: either the scan ends with a result, or it
      goes on at `next`. */
  method ReadSegment(source: bytes, marker: byte, position: nat) returns (ended: bool, r: Result, next: nat)
    requires position <= |source|
    ensures ended ==> TurnAtMarker(marker, source[position..]) == Stop(r)
    ensures !ended ==> position <= next <= |source|
    ensures !ended ==> TurnAtMarker(marker, source[position..]) == Continue(source[next..])
  {
    ghost var u := source[position..];
    if IsStandalone(marker) {
      return false, HeaderInvalid, position;
    }
    if position + 2 > |source| {
      return true, HeaderInvalid, position;
    }
    assert u[..2] == source[position..position + 2];
    var length := FromBigEndian(source[position..position + 2]);
    if length < 2 || position + length > |source| {
      return true, HeaderInvalid, position;
    }
    if IsFrameHeader(marker) {
      if length < 8 {
        return true, HeaderInvalid, position;
      }
      assert u[3..5] == source[position + 3..position + 5];
      assert u[5..7] == source[position + 5..position + 7];
      var height := FromBigEndian(source[position + 3..position + 5]);
      var width := FromBigEndian(source[position + 5..position + 7]);
      if width < 1 || height < 1 {
        return true, HeaderInvalid, position;
      }
      return true, Found(Size(width, height)), position;
    }
    if marker == START_OF_SCAN {
      return true, HeaderInvalid, position;
    }
    assert u[length..] == source[position + length..];
    return false, HeaderInvalid, position + length;
  }

  /** _jpeg_dimensions. */
  method JpegDimensions(source: bytes) returns (r: Result)
    ensures r == Dimensions(source)
  {
    if |source| < 4 || source[..2] != [0xFF, 0xD8] {
      return HeaderInvalid;
    }
    var position := 2;
    while position < |source|
      invariant 2 <= position <= |source|
      invariant Scan(source[position..]) == Dimensions(source)
      decreases |source| - position
    {
      ghost var left := source[position..];
      if source[position] != 0xFF {
        return HeaderInvalid;
      }
      var start := SkipFillAt(source, position);
      if start >= |source| {
        return HeaderInvalid;
      }
      assert SkipFill(left)[1..] == source[start + 1..];
      var ended, result, next := ReadSegment(source, source[start], start + 1);
      if ended {
        return result;
      }
      position := next;
    }
    return HeaderInvalid;
  }
}
