/** The OCR summariser of infra/f0e/runner.py, the block passes of infra/f0f/runner.py and
    infra/f0h/runner.py, and the consumer in src/platform_foundation/f0h/contracts.py that
    recomputes the summary from the blocks.

    Coordinates and scores are real numbers. Unicode NFC and the blank test are parameters: all
    that is asked of NFC is that it is idempotent and adds no carriage return. */
module Ocr {
  import opened Wrappers
  import opened Bytes
  import Json

  const MAX_BLOCKS := 1024
  const MAX_CHARS := 1_000_000
  const MAX_PIXELS := 16_000_000
  const PPM := 1_000_000

  // ---------- rounding ----------

  /** round(x): to the nearest integer, ties to the even one. */
  function Round(x: real): (r: int) {
    var f := x.Floor;
    var d := x - f as real;
    if d < 0.5 then f else if d > 0.5 then f + 1 else if f % 2 == 0 then f else f + 1
  }

  /** Nothing is nearer, a tie is even, and an integer is itself. */
  lemma {:induction false} RoundIsNearest(x: real)
    ensures -0.5 <= Round(x) as real - x <= 0.5
    ensures Round(x) as real - x == 0.5 || x - Round(x) as real == 0.5 ==> Round(x) % 2 == 0
  {
  }

  lemma {:induction false} RoundMonotone(x: real, y: real)
    requires x <= y
    ensures Round(x) <= Round(y)
  {
    assert x.Floor <= y.Floor;
  }

  lemma {:induction false} RoundInt(n: int)
    ensures Round(n as real) == n
  {
  }

  /** min(limit, max(0, round(x))). */
  function Clamped(limit: nat, x: real): (r: nat)
    ensures r <= limit
  {
    var r := Round(x);
    if r < 0 then 0 else if r > limit then limit else r
  }

  /** Clamping keeps the order, and leaves alone what is already in range. */
  lemma {:induction false} ClampedMonotone(limit: nat, x: real, y: real)
    requires x <= y
    ensures Clamped(limit, x) <= Clamped(limit, y)
    ensures -0.5 < x < limit as real + 0.5 ==> -0.5 <= Clamped(limit, x) as real - x <= 0.5
  {
    RoundMonotone(x, y);
    RoundIsNearest(x);
  }

  // ---------- raw results ----------

  /** What float() makes of a value. */
  datatype Number = NotNumeric | NotFinite | Finite(value: real)

  datatype RawPoint = NotAPoint | RawPoint(x: Number, y: Number)

  datatype RawBox = NotABox | RawBox(points: seq<RawPoint>)

  /** An item of the engine's list; text is None where it is not a string. */
  datatype RawItem = NotAnItem | RawItem(box: RawBox, text: Option<string>, score: Number)

  datatype RawResult = Missing | NotAList | RawList(items: seq<RawItem>)

  // ---------- text ----------

  /** text.replace("\r\n", "\n"). */
  function ReplaceCrLf(s: string): string {
    if s == "" then ""
    else if |s| >= 2 && s[0] == '\r' && s[1] == '\n' then "\n" + ReplaceCrLf(s[2..])
    else [s[0]] + ReplaceCrLf(s[1..])
  }

  /** text.replace("\r", "\n"). */
  function ReplaceCr(s: string): string {
    if s == "" then "" else [if s[0] == '\r' then '\n' else s[0]] + ReplaceCr(s[1..])
  }

  /** The lines of a text, whatever ends them: CR LF, CR or LF. */
  function OneNewline(s: string): string {
    if s == "" then ""
    else if s[0] == '\r' then "\n" + OneNewline(if |s| >= 2 && s[1] == '\n' then s[2..] else s[1..])
    else [s[0]] + OneNewline(s[1..])
  }

  lemma {:induction false} NewlinesInOnePass(s: string)
    ensures ReplaceCr(ReplaceCrLf(s)) == OneNewline(s)
  {
    if s != "" {
      if s[0] == '\r' && |s| >= 2 && s[1] == '\n' {
        NewlinesInOnePass(s[2..]);
      } else {
        NewlinesInOnePass(s[1..]);
      }
    }
  }

  lemma {:induction false} NoCrLeft(s: string)
    ensures '\r' !in ReplaceCr(s)
  {
    if s != "" {
      NoCrLeft(s[1..]);
    }
  }

  lemma {:induction false} NothingToReplace(s: string)
    requires '\r' !in s
    ensures ReplaceCr(ReplaceCrLf(s)) == s
  {
    if s != "" {
      assert s[0] in s;
      assert forall c :: c in s[1..] ==> c in s;
      NothingToReplace(s[1..]);
      assert s == [s[0]] + s[1..];
    }
  }

  /** NFC, the blank test, and the two fixed digest prefixes. */
  datatype Rules = Rules(nfc: string -> string, blank: char -> bool, textPrefix: bytes, boxPrefix: bytes)

  ghost predicate NfcLaws(nfc: string -> string) {
    forall s :: nfc(nfc(s)) == nfc(s) && ('\r' !in s ==> '\r' !in nfc(s))
  }

  function Normalize(rules: Rules, text: string): string {
    rules.nfc(ReplaceCr(ReplaceCrLf(text)))
  }

  lemma {:induction false} NormalizeIdempotent(rules: Rules, text: string)
    requires NfcLaws(rules.nfc)
    ensures Normalize(rules, Normalize(rules, text)) == Normalize(rules, text)
  {
    NoCrLeft(ReplaceCrLf(text));
    NothingToReplace(Normalize(rules, text));
  }

  function Nonblank(blank: char -> bool, s: string): (n: nat)
    ensures n <= |s|
  {
    if s == "" then 0 else (if blank(s[0]) then 0 else 1) + Nonblank(blank, s[1..])
  }

  // ---------- blocks ----------

  datatype Pixel = Pixel(x: nat, y: nat)

  /** The four corners of a text box. */
  type Box = s: seq<Pixel> | |s| == 4 witness [Pixel(0, 0), Pixel(0, 0), Pixel(0, 0), Pixel(0, 0)]

  datatype Page = Page(width: nat, height: nat)

  /** The sides of a page, each within the limit on its pixels; the envelope and the renderer bound
      their product, which nothing here needs. */
  predicate PageOk(page: Page) {
    page.width <= MAX_PIXELS && page.height <= MAX_PIXELS
  }

  datatype Block = Block(box: Box, ppm: nat, index: nat, text: string)

  predicate PointOk(p: RawPoint) {
    p.RawPoint? && p.x.Finite? && p.y.Finite?
  }

  predicate BoxOk(box: RawBox) {
    box.RawBox? && |box.points| == 4 && forall i :: 0 <= i < |box.points| ==> PointOk(box.points[i])
  }

  predicate ItemOk(item: RawItem) {
    item.RawItem? && BoxOk(item.box) && item.text.Some? && item.score.Finite?
  }

  function PixelOf(page: Page, p: RawPoint): Pixel
    requires PointOk(p)
  {
    Pixel(Clamped(page.width, p.x.value), Clamped(page.height, p.y.value))
  }

  function PixelsOf(page: Page, box: RawBox): Box
    requires BoxOk(box)
  {
    seq(4, i requires 0 <= i < 4 => PixelOf(page, box.points[i]))
  }

  function PpmOf(score: real): (ppm: nat)
    ensures ppm <= PPM
  {
    Clamped(PPM, score * PPM as real)
  }

  function BlockOf(rules: Rules, page: Page, item: RawItem, index: nat): (b: Block)
    requires ItemOk(item)
    ensures b.ppm <= PPM
  {
    Block(PixelsOf(page, item.box), PpmOf(item.score.value), index, Normalize(rules, item.text.value))
  }

  predicate ItemsOk(items: seq<RawItem>) {
    forall i :: 0 <= i < |items| ==> ItemOk(items[i])
  }

  /** The blocks of a list of well-formed items. */
  function BlocksOf(rules: Rules, page: Page, items: seq<RawItem>): (blocks: seq<Block>)
    requires ItemsOk(items)
    ensures |blocks| == |items|
  {
    seq(|items|, i requires 0 <= i < |items| => BlockOf(rules, page, items[i], i))
  }

  function Chars(blocks: seq<Block>): (n: nat) {
    if blocks == [] then 0 else Chars(blocks[..|blocks| - 1]) + |blocks[|blocks| - 1].text|
  }

  function NonblankChars(blank: char -> bool, blocks: seq<Block>): (n: nat) {
    if blocks == [] then 0
    else NonblankChars(blank, blocks[..|blocks| - 1]) + Nonblank(blank, blocks[|blocks| - 1].text)
  }

  function ItemsOf(result: RawResult): seq<RawItem> {
    if result.RawList? then result.items else []
  }

  /** The results that the summariser takes. */
  predicate Acceptable(rules: Rules, page: Page, result: RawResult) {
    && !result.NotAList?
    && var items := ItemsOf(result);
       |items| <= MAX_BLOCKS && ItemsOk(items) && Chars(BlocksOf(rules, page, items)) <= MAX_CHARS
  }

  lemma {:induction false} CharsPrefix(blocks: seq<Block>, k: nat)
    requires k <= |blocks|
    ensures Chars(blocks[..k]) <= Chars(blocks)
  {
    if k < |blocks| {
      CharsPrefix(blocks[..|blocks| - 1], k);
      assert blocks[..|blocks| - 1][..k] == blocks[..k];
    } else {
      assert blocks[..k] == blocks;
    }
  }

  // ---------- the digest streams ----------

  predicate Framable(start: nat, items: seq<bytes>, width: nat) {
    start + |items| <= Pow256(4) && forall i :: 0 <= i < |items| ==> |items[i]| < Pow256(width)
  }

  function Frame(index: nat, item: bytes, width: nat): bytes
    requires index < Pow256(4) && |item| < Pow256(width)
  {
    BigEndian(index, 4) + BigEndian(|item|, width) + item
  }

  /** Each item preceded by its index in four bytes and its length in `width` bytes. */
  function Framed(start: nat, items: seq<bytes>, width: nat): bytes
    requires Framable(start, items, width)
    decreases |items|
  {
    if items == [] then [] else Frame(start, items[0], width) + Framed(start + 1, items[1..], width)
  }

  lemma {:induction false} FramedAppend(start: nat, items: seq<bytes>, item: bytes, width: nat)
    requires Framable(start, items + [item], width)
    ensures Framable(start, items, width) && start + |items| < Pow256(4) && |item| < Pow256(width)
    ensures Framed(start, items + [item], width) == Framed(start, items, width) + Frame(start + |items|, item, width)
    decreases |items|
  {
    var all := items + [item];
    assert forall i :: 0 <= i < |items| ==> items[i] == all[i];
    assert all[|items|] == item;
    if items == [] {
      assert all[1..] == [];
    } else {
      assert all[1..] == items[1..] + [item];
      FramedAppend(start + 1, items[1..], item, width);
    }
  }

  lemma {:induction false} FramePrefixFree(index: nat, a: bytes, r: bytes, b: bytes, s: bytes, width: nat)
    requires index < Pow256(4) && |a| < Pow256(width) && |b| < Pow256(width)
    requires Frame(index, a, width) + r == Frame(index, b, width) + s
    ensures a == b && r == s
  {
    var n := BigEndian(index, 4);
    assert Frame(index, a, width) + r == n + (BigEndian(|a|, width) + (a + r));
    assert Frame(index, b, width) + s == n + (BigEndian(|b|, width) + (b + s));
    CancelPrefix(n, BigEndian(|a|, width) + (a + r), n, BigEndian(|b|, width) + (b + s));
    CancelPrefix(BigEndian(|a|, width), a + r, BigEndian(|b|, width), b + s);
    BigEndianInjective(|a|, |b|, width);
    CancelPrefix(a, r, b, s);
  }

  /** A framed stream can be read in one way only: equal streams hold the same items, in the same
      order and in the same number. */
  lemma {:induction false} FramedInjective(start: nat, a: seq<bytes>, b: seq<bytes>, width: nat)
    requires Framable(start, a, width) && Framable(start, b, width)
    requires Framed(start, a, width) == Framed(start, b, width)
    ensures a == b
    decreases |a|
  {
    if a != [] && b != [] {
      FramePrefixFree(start, a[0], Framed(start + 1, a[1..], width), b[0], Framed(start + 1, b[1..], width), width);
      FramedInjective(start + 1, a[1..], b[1..], width);
      assert a == [a[0]] + a[1..] && b == [b[0]] + b[1..];
    }
  }

  // ---------- boxes as canonical JSON ----------

  function PointJson(p: Pixel): Json.Value {
    Json.Arr([Json.Int(p.x), Json.Int(p.y)])
  }

  function BoxItems(box: Box): (items: seq<Json.Value>)
    ensures forall x :: x in items ==> Json.WellFormed(x)
  {
    [PointJson(box[0]), PointJson(box[1]), PointJson(box[2]), PointJson(box[3])]
  }

  function BoxJson(box: Box): (v: Json.Value)
    ensures Json.WellFormed(v)
  {
    Json.Arr(BoxItems(box))
  }

  function BoxBytes(box: Box): bytes {
    Json.PrintAscii(BoxJson(box));
    FromAscii(Json.Print(BoxJson(box)))
  }

  lemma {:induction false} BoxBytesInjective(a: Box, b: Box)
    requires BoxBytes(a) == BoxBytes(b)
    ensures a == b
  {
    var s, t := Json.Print(BoxJson(a)), Json.Print(BoxJson(b));
    Json.PrintAscii(BoxJson(a));
    Json.PrintAscii(BoxJson(b));
    AsciiRoundTrip(s);
    AsciiRoundTrip(t);
    assert s + "" == t + "";
    Json.PrintInjective(BoxJson(a), "", BoxJson(b), "");
    forall i | 0 <= i < 4 ensures a[i] == b[i] {
      assert PointJson(a[i]) == BoxItems(a)[i] == BoxItems(b)[i] == PointJson(b[i]);
    }
  }

  predicate BoxInRange(box: Box) {
    forall i :: 0 <= i < 4 ==> box[i].x <= MAX_PIXELS && box[i].y <= MAX_PIXELS
  }

  lemma {:induction false} PointJsonLength(p: Pixel)
    requires p.x <= MAX_PIXELS && p.y <= MAX_PIXELS
    ensures |Json.Print(PointJson(p))| <= 19
  {
    Json.Pow10Values();
    Json.DigitsLength(p.x, 8);
    Json.DigitsLength(p.y, 8);
    var items := [Json.Int(p.x), Json.Int(p.y)];
    assert items[1..] == [Json.Int(p.y)];
    assert Json.PrintItems(items[1..]) == Json.Print(Json.Int(p.y)) == Json.Digits(p.y);
    assert Json.Print(items[0]) == Json.Digits(p.x);
    assert Json.Print(PointJson(p)) == "[" + Json.PrintItems(items) + "]";
  }

  lemma {:induction false} ItemsLength(item: Json.Value, items: seq<Json.Value>, n: nat)
    requires Json.WellFormed(item) && items != [] && forall x :: x in items ==> Json.WellFormed(x)
    requires |Json.PrintItems(items)| <= n && |Json.Print(item)| <= 19
    ensures forall x :: x in [item] + items ==> Json.WellFormed(x)
    ensures |Json.PrintItems([item] + items)| <= n + 20
  {
    var all := [item] + items;
    assert all[0] == item && all[1..] == items && |all| > 1;
    assert Json.PrintItems(all) == Json.Print(item) + "," + Json.PrintItems(items);
  }

  lemma {:induction false} BoxBytesShort(box: Box)
    requires BoxInRange(box)
    ensures |BoxBytes(box)| <= 81
  {
    var items := BoxItems(box);
    PointJsonLength(box[0]);
    PointJsonLength(box[1]);
    PointJsonLength(box[2]);
    PointJsonLength(box[3]);
    ItemsLength(items[2], [items[3]], 19);
    assert [items[2]] + [items[3]] == [items[2], items[3]];
    ItemsLength(items[1], [items[2], items[3]], 39);
    assert [items[1]] + [items[2], items[3]] == [items[1], items[2], items[3]];
    ItemsLength(items[0], [items[1], items[2], items[3]], 59);
    assert [items[0]] + [items[1], items[2], items[3]] == items;
  }

  // ---------- the union box ----------

  datatype Rect = Rect(left: nat, top: nat, right: nat, bottom: nat)

  function Min(a: nat, b: nat): nat {
    if a <= b then a else b
  }

  function Max(a: nat, b: nat): nat {
    if a >= b then a else b
  }

  function Around(box: Box): Rect {
    Rect(Min(Min(box[0].x, box[1].x), Min(box[2].x, box[3].x)), Min(Min(box[0].y, box[1].y), Min(box[2].y, box[3].y)),
         Max(Max(box[0].x, box[1].x), Max(box[2].x, box[3].x)), Max(Max(box[0].y, box[1].y), Max(box[2].y, box[3].y)))
  }

  function Join(a: Rect, b: Rect): Rect {
    Rect(Min(a.left, b.left), Min(a.top, b.top), Max(a.right, b.right), Max(a.bottom, b.bottom))
  }

  function UnionOf(blocks: seq<Block>): Option<Rect> {
    if blocks == [] then None
    else
      var n := |blocks| - 1;
      var before := UnionOf(blocks[..n]);
      Some(if before.None? then Around(blocks[n].box) else Join(before.value, Around(blocks[n].box)))
  }

  predicate Inside(p: Pixel, r: Rect) {
    r.left <= p.x <= r.right && r.top <= p.y <= r.bottom
  }

  predicate Encloses(r: Rect, box: Box) {
    forall k :: 0 <= k < 4 ==> Inside(box[k], r)
  }

  predicate Covers(r: Rect, blocks: seq<Block>) {
    forall i :: 0 <= i < |blocks| ==> Encloses(r, blocks[i].box)
  }

  predicate Within(a: Rect, b: Rect) {
    b.left <= a.left && a.right <= b.right && b.top <= a.top && a.bottom <= b.bottom
  }

  lemma {:induction false} AroundIsLeast(box: Box, r: Rect)
    ensures Encloses(Around(box), box)
    ensures Encloses(r, box) <==> Within(Around(box), r)
  {
    if Encloses(r, box) {
      assert Inside(box[0], r) && Inside(box[1], r) && Inside(box[2], r) && Inside(box[3], r);
    }
  }

  /** The union is the least rectangle that holds every corner of every box: a rectangle covers the
      blocks exactly when the union lies within it. */
  lemma {:induction false} UnionIsLeast(blocks: seq<Block>, r: Rect)
    ensures UnionOf(blocks).None? <==> blocks == []
    ensures blocks != [] ==> (Covers(r, blocks) <==> Within(UnionOf(blocks).value, r))
  {
    if blocks != [] {
      var n := |blocks| - 1;
      UnionIsLeast(blocks[..n], r);
      AroundIsLeast(blocks[n].box, r);
      assert Covers(r, blocks) <==> Covers(r, blocks[..n]) && Encloses(r, blocks[n].box) by {
        assert forall i :: 0 <= i < n ==> blocks[..n][i] == blocks[i];
      }
    }
  }

  lemma {:induction false} UnionInPage(page: Page, blocks: seq<Block>)
    requires blocks != [] && forall i :: 0 <= i < |blocks| ==> BoxInPage(page, blocks[i].box)
    ensures Covers(UnionOf(blocks).value, blocks)
    ensures RectInPage(page, UnionOf(blocks).value)
  {
    var union := UnionOf(blocks).value;
    UnionIsLeast(blocks, union);
    var whole := Rect(0, 0, page.width, page.height);
    UnionIsLeast(blocks, whole);
    assert Covers(whole, blocks);
    assert Encloses(union, blocks[0].box);
    assert Inside(blocks[0].box[0], union);
  }

  predicate RectInPage(page: Page, r: Rect) {
    r.left <= r.right <= page.width && r.top <= r.bottom <= page.height
  }

  predicate BoxInPage(page: Page, box: Box) {
    forall k :: 0 <= k < 4 ==> box[k].x <= page.width && box[k].y <= page.height
  }

  // ---------- confidence ----------

  function Sum(values: seq<nat>): nat {
    if values == [] then 0 else Sum(values[..|values| - 1]) + values[|values| - 1]
  }

  function Least(values: seq<nat>): nat
    requires values != []
  {
    var n := |values| - 1;
    if n == 0 then values[0] else Min(Least(values[..n]), values[n])
  }

  function Mean(values: seq<nat>): nat
    requires values != []
  {
    (Sum(values) + |values| / 2) / |values|
  }

  lemma {:induction false} LeastIsLeast(values: seq<nat>)
    requires values != []
    ensures forall i :: 0 <= i < |values| ==> Least(values) <= values[i]
    ensures Least(values) in values
  {
    var n := |values| - 1;
    if n > 0 {
      LeastIsLeast(values[..n]);
      forall i | 0 <= i < |values| ensures Least(values) <= values[i] {
        assert i < n ==> values[..n][i] == values[i];
      }
      assert forall v :: v in values[..n] ==> v in values;
    }
  }

  lemma {:induction false} OneMore(n: nat, k: nat)
    ensures (n + 1) * k == n * k + k
  {
  }

  lemma {:induction false} SumBounds(values: seq<nat>, low: nat, high: nat)
    requires forall i :: 0 <= i < |values| ==> low <= values[i] <= high
    ensures |values| * low <= Sum(values) <= |values| * high
  {
    if values != [] {
      var n := |values| - 1;
      SumBounds(values[..n], low, high);
      assert low <= values[n] <= high;
      OneMore(n, low);
      OneMore(n, high);
    }
  }

  lemma {:induction false} MultiplesApart(n: nat, a: nat, b: nat)
    requires a < b
    ensures n * a + n <= n * b
  {
    if a + 1 < b {
      MultiplesApart(n, a, b - 1);
    }
  }

  /** sum / n rounded to the nearest integer. */
  predicate Nearest(mean: int, sum: int, n: int) {
    -n <= 2 * (n * mean - sum) <= n
  }

  lemma {:induction false} RoundedQuotient(sum: nat, n: nat, low: nat, high: nat)
    requires n > 0 && n * low <= sum <= n * high
    ensures low <= (sum + n / 2) / n <= high && Nearest((sum + n / 2) / n, sum, n)
  {
    var mean := (sum + n / 2) / n;
    assert sum + n / 2 == n * mean + (sum + n / 2) % n;
    if mean < low {
      MultiplesApart(n, mean, low);
    }
    if mean > high {
      MultiplesApart(n, high, mean);
    }
  }

  function Greatest(values: seq<nat>): nat
    requires values != []
  {
    var n := |values| - 1;
    if n == 0 then values[0] else Max(Greatest(values[..n]), values[n])
  }

  lemma {:induction false} GreatestIsGreatest(values: seq<nat>)
    requires values != []
    ensures forall i :: 0 <= i < |values| ==> values[i] <= Greatest(values)
    ensures Greatest(values) in values
  {
    var n := |values| - 1;
    if n > 0 {
      GreatestIsGreatest(values[..n]);
      forall i | 0 <= i < |values| ensures values[i] <= Greatest(values) {
        assert i < n ==> values[..n][i] == values[i];
      }
      assert forall v :: v in values[..n] ==> v in values;
    }
  }

  /** The mean is the sum over the count rounded to the nearest integer, between the least value
      and the greatest. */
  lemma {:induction false} ConfidenceBounds(values: seq<nat>)
    requires values != [] && forall i :: 0 <= i < |values| ==> values[i] <= PPM
    ensures Least(values) <= Mean(values) <= Greatest(values) <= PPM
    ensures Nearest(Mean(values), Sum(values), |values|)
  {
    LeastIsLeast(values);
    GreatestIsGreatest(values);
    SumBounds(values, Least(values), Greatest(values));
    RoundedQuotient(Sum(values), |values|, Least(values), Greatest(values));
  }

  // ---------- the summary ----------

  datatype Summary = Summary(
    boxDigest: Digest, union: Option<Rect>, mean: Option<nat>, least: Option<nat>, blocks: nat, chars: nat,
    nonblank: nat, textDigest: Digest)

  function Texts(blocks: seq<Block>): (items: seq<bytes>)
    ensures |items| == |blocks|
  {
    seq(|blocks|, i requires 0 <= i < |blocks| => Utf8(blocks[i].text))
  }

  function Boxes(blocks: seq<Block>): (items: seq<bytes>)
    ensures |items| == |blocks|
  {
    seq(|blocks|, i requires 0 <= i < |blocks| => BoxBytes(blocks[i].box))
  }

  function Ppms(blocks: seq<Block>): (values: seq<nat>)
    ensures |values| == |blocks|
  {
    seq(|blocks|, i requires 0 <= i < |blocks| => blocks[i].ppm)
  }

  /** Blocks within the limits of a page. */
  predicate Sized(blocks: seq<Block>) {
    && |blocks| <= MAX_BLOCKS && Chars(blocks) <= MAX_CHARS
    && forall i :: 0 <= i < |blocks| ==> BoxInRange(blocks[i].box)
  }

  lemma {:induction false} TextWithinChars(blocks: seq<Block>, i: nat)
    requires i < |blocks|
    ensures |blocks[i].text| <= Chars(blocks)
  {
    if i < |blocks| - 1 {
      TextWithinChars(blocks[..|blocks| - 1], i);
    }
  }

  lemma {:induction false} SizedFramable(blocks: seq<Block>)
    requires Sized(blocks)
    ensures Framable(0, Texts(blocks), 8) && Framable(0, Boxes(blocks), 4)
  {
    Pow256Values();
    forall i | 0 <= i < |blocks| ensures |Texts(blocks)[i]| < Pow256(8) && |Boxes(blocks)[i]| < Pow256(4) {
      TextWithinChars(blocks, i);
      BoxBytesShort(blocks[i].box);
    }
  }

  function TextPreimage(rules: Rules, blocks: seq<Block>): bytes
    requires Sized(blocks)
  {
    SizedFramable(blocks);
    rules.textPrefix + Framed(0, Texts(blocks), 8)
  }

  function BoxPreimage(rules: Rules, blocks: seq<Block>): bytes
    requires Sized(blocks)
  {
    SizedFramable(blocks);
    rules.boxPrefix + Framed(0, Boxes(blocks), 4)
  }

  /** Equal text preimages hold the same normalised texts in the same order. */
  lemma {:induction false} TextPreimageInjective(rules: Rules, a: seq<Block>, b: seq<Block>)
    requires Sized(a) && Sized(b) && TextPreimage(rules, a) == TextPreimage(rules, b)
    ensures |a| == |b| && forall i :: 0 <= i < |a| ==> a[i].text == b[i].text
  {
    SizedFramable(a);
    SizedFramable(b);
    CancelPrefix(rules.textPrefix, Framed(0, Texts(a), 8), rules.textPrefix, Framed(0, Texts(b), 8));
    FramedInjective(0, Texts(a), Texts(b), 8);
    forall i | 0 <= i < |a| ensures a[i].text == b[i].text {
      assert Texts(a)[i] == Texts(b)[i];
      Utf8Injective(a[i].text, b[i].text);
    }
  }

  /** Equal box preimages hold the same rounded boxes in the same order. */
  lemma {:induction false} BoxPreimageInjective(rules: Rules, a: seq<Block>, b: seq<Block>)
    requires Sized(a) && Sized(b) && BoxPreimage(rules, a) == BoxPreimage(rules, b)
    ensures |a| == |b| && forall i :: 0 <= i < |a| ==> a[i].box == b[i].box
  {
    SizedFramable(a);
    SizedFramable(b);
    CancelPrefix(rules.boxPrefix, Framed(0, Boxes(a), 4), rules.boxPrefix, Framed(0, Boxes(b), 4));
    FramedInjective(0, Boxes(a), Boxes(b), 4);
    forall i | 0 <= i < |a| ensures a[i].box == b[i].box {
      assert Boxes(a)[i] == Boxes(b)[i];
      BoxBytesInjective(a[i].box, b[i].box);
    }
  }

  /** The summary as a function of the blocks. */
  function SummaryOf(h: bytes -> Digest, rules: Rules, blocks: seq<Block>): Summary
    requires Sized(blocks)
  {
    var nonblank := NonblankChars(rules.blank, blocks);
    var rated := blocks != [] && nonblank > 0;
    Summary(
      h(BoxPreimage(rules, blocks)), UnionOf(blocks),
      if rated then Some(Mean(Ppms(blocks))) else None, if rated then Some(Least(Ppms(blocks))) else None,
      |blocks|, Chars(blocks), nonblank, h(TextPreimage(rules, blocks)))
  }

  // ---------- the runner ----------

  /** _rounded_box. */
  method RoundedBox(page: Page, box: RawBox) returns (r: Option<Box>)
    ensures r.Some? <==> BoxOk(box)
    ensures r.Some? ==> r.value == PixelsOf(page, box)
  {
    if box.NotABox? || |box.points| != 4 {
      return None;
    }
    var rounded: seq<Pixel> := [];
    var i := 0;
    while i < 4
      invariant 0 <= i <= 4 && |rounded| == i
      invariant forall k :: 0 <= k < i ==> PointOk(box.points[k]) && rounded[k] == PixelOf(page, box.points[k])
    {
      var point := box.points[i];
      if !PointOk(point) {
        return None;
      }
      rounded := rounded + [Pixel(Clamped(page.width, point.x.value), Clamped(page.height, point.y.value))];
      i := i + 1;
    }
    r := Some(rounded);
  }

  lemma {:induction false} BlocksOfNext(rules: Rules, page: Page, items: seq<RawItem>, i: nat)
    requires i < |items| && ItemsOk(items[..i]) && ItemOk(items[i])
    ensures ItemsOk(items[..i + 1])
    ensures BlocksOf(rules, page, items[..i + 1]) == BlocksOf(rules, page, items[..i]) + [BlockOf(rules, page, items[i], i)]
  {
    assert forall k :: 0 <= k < i ==> items[..i + 1][k] == items[..i][k];
  }

  /** The running count only grows, so passing the limit early is passing it in the end. */
  lemma {:induction false} PrefixTooLong(rules: Rules, page: Page, items: seq<RawItem>, i: nat)
    requires i <= |items| && ItemsOk(items[..i]) && Chars(BlocksOf(rules, page, items[..i])) > MAX_CHARS
    ensures ItemsOk(items) ==> Chars(BlocksOf(rules, page, items)) > MAX_CHARS
  {
    if ItemsOk(items) {
      var blocks := BlocksOf(rules, page, items);
      assert blocks[..i] == BlocksOf(rules, page, items[..i]);
      CharsPrefix(blocks, i);
    }
  }

  lemma {:induction false} AppendChars(blocks: seq<Block>, b: Block)
    ensures Chars(blocks + [b]) == Chars(blocks) + |b.text|
  {
    assert (blocks + [b])[..|blocks|] == blocks;
  }

  lemma {:induction false} AppendBlock(rules: Rules, blocks: seq<Block>, b: Block)
    ensures Chars(blocks + [b]) == Chars(blocks) + |b.text|
    ensures NonblankChars(rules.blank, blocks + [b]) == NonblankChars(rules.blank, blocks) + Nonblank(rules.blank, b.text)
    ensures UnionOf(blocks + [b])
         == Some(if UnionOf(blocks).None? then Around(b.box) else Join(UnionOf(blocks).value, Around(b.box)))
    ensures Ppms(blocks + [b]) == Ppms(blocks) + [b.ppm]
  {
    assert (blocks + [b])[..|blocks|] == blocks;
  }

  lemma {:induction false} PixelsInPage(page: Page, box: RawBox)
    requires BoxOk(box)
    ensures BoxInPage(page, PixelsOf(page, box))
    ensures PageOk(page) ==> BoxInRange(PixelsOf(page, box))
  {
  }

  /** The totals that the summariser carries from block to block. */
  datatype Totals = Totals(text: bytes, box: bytes, chars: nat, nonblank: nat, ppms: seq<nat>, union: Option<Rect>)

  ghost predicate Tracks(rules: Rules, blocks: seq<Block>, t: Totals) {
    && Sized(blocks)
    && t.text == TextPreimage(rules, blocks) && t.box == BoxPreimage(rules, blocks)
    && t.chars == Chars(blocks) && t.nonblank == NonblankChars(rules.blank, blocks)
    && t.ppms == Ppms(blocks) && t.union == UnionOf(blocks)
  }

  lemma {:induction false} TextsNext(blocks: seq<Block>, b: Block)
    ensures Texts(blocks + [b]) == Texts(blocks) + [Utf8(b.text)]
  {
  }

  lemma {:induction false} BoxesNext(blocks: seq<Block>, b: Block)
    ensures Boxes(blocks + [b]) == Boxes(blocks) + [BoxBytes(b.box)]
  {
  }

  lemma {:induction false} StreamAppend(prefix: bytes, all: seq<bytes>, items: seq<bytes>, item: bytes, width: nat)
    requires all == items + [item] && Framable(0, all, width)
    ensures Framable(0, items, width) && |items| < Pow256(4) && |item| < Pow256(width)
    ensures prefix + Framed(0, all, width) == prefix + Framed(0, items, width) + Frame(|items|, item, width)
  {
    FramedAppend(0, items, item, width);
  }

  lemma {:induction false} TextStreamNext(rules: Rules, blocks: seq<Block>, b: Block)
    requires Sized(blocks) && Sized(blocks + [b])
    ensures |blocks| < Pow256(4) && |Utf8(b.text)| < Pow256(8)
    ensures TextPreimage(rules, blocks + [b]) == TextPreimage(rules, blocks) + Frame(|blocks|, Utf8(b.text), 8)
  {
    SizedFramable(blocks);
    SizedFramable(blocks + [b]);
    TextsNext(blocks, b);
    StreamAppend(rules.textPrefix, Texts(blocks + [b]), Texts(blocks), Utf8(b.text), 8);
  }

  lemma {:induction false} BoxStreamNext(rules: Rules, blocks: seq<Block>, b: Block)
    requires Sized(blocks) && Sized(blocks + [b])
    ensures |blocks| < Pow256(4) && |BoxBytes(b.box)| < Pow256(4)
    ensures BoxPreimage(rules, blocks + [b]) == BoxPreimage(rules, blocks) + Frame(|blocks|, BoxBytes(b.box), 4)
  {
    SizedFramable(blocks);
    SizedFramable(blocks + [b]);
    BoxesNext(blocks, b);
    StreamAppend(rules.boxPrefix, Boxes(blocks + [b]), Boxes(blocks), BoxBytes(b.box), 4);
  }

  /** What a block adds to the totals. */
  method Absorb(rules: Rules, ghost blocks: seq<Block>, b: Block, t: Totals) returns (t': Totals)
    requires Tracks(rules, blocks, t) && Sized(blocks + [b]) && b.index == |blocks|
    ensures Tracks(rules, blocks + [b], t')
  {
    TextStreamNext(rules, blocks, b);
    BoxStreamNext(rules, blocks, b);
    AppendBlock(rules, blocks, b);
    var encoded := Utf8(b.text);
    var canonical := BoxBytes(b.box);
    var current := Around(b.box);
    t' := Totals(
      t.text + Frame(b.index, encoded, 8), t.box + Frame(b.index, canonical, 4), t.chars + |b.text|,
      t.nonblank + Nonblank(rules.blank, b.text), t.ppms + [b.ppm],
      Some(if t.union.None? then current else Join(t.union.value, current)));
  }

  function Start(rules: Rules): Totals {
    Totals(rules.textPrefix, rules.boxPrefix, 0, 0, [], None)
  }

  lemma {:induction false} EmptyTracks(rules: Rules)
    ensures Tracks(rules, [], Start(rules))
  {
    assert Texts([]) == [] && Boxes([]) == [] && Ppms([]) == [];
  }

  /** blocks are the blocks of the first i items. */
  ghost predicate ReadSoFar(rules: Rules, page: Page, items: seq<RawItem>, i: nat, blocks: seq<Block>) {
    i <= |items| <= MAX_BLOCKS && ItemsOk(items[..i]) && blocks == BlocksOf(rules, page, items[..i])
  }

  /** A well-formed item within the limit extends what was read. */
  lemma {:induction false} ItemAccepted(rules: Rules, page: Page, items: seq<RawItem>, i: nat, blocks: seq<Block>)
    requires i < |items| && ReadSoFar(rules, page, items, i, blocks) && ItemOk(items[i])
    ensures var b := BlockOf(rules, page, items[i], i);
      && ReadSoFar(rules, page, items, i + 1, blocks + [b]) && Chars(blocks + [b]) == Chars(blocks) + |b.text|
      && (PageOk(page) ==> BoxInRange(b.box))
  {
    BlocksOfNext(rules, page, items, i);
    AppendChars(blocks, BlockOf(rules, page, items[i], i));
    PixelsInPage(page, items[i].box);
  }

  lemma {:induction false} ItemAdds(rules: Rules, page: Page, items: seq<RawItem>, i: nat, blocks: seq<Block>, b: Block)
    requires PageOk(page) && i == |blocks| < |items| && ReadSoFar(rules, page, items, i, blocks) && Sized(blocks)
    requires ItemOk(items[i]) && b == BlockOf(rules, page, items[i], i) && Chars(blocks) + |b.text| <= MAX_CHARS
    ensures ReadSoFar(rules, page, items, i + 1, blocks + [b]) && Sized(blocks + [b])
  {
    ItemAccepted(rules, page, items, i, blocks);
    SizedNext(blocks, b);
  }

  /** Passing the limit refuses the result, whatever is wrong with the item besides. */
  lemma {:induction false} ItemTooLong(rules: Rules, page: Page, items: seq<RawItem>, i: nat, blocks: seq<Block>)
    requires i < |items| && ReadSoFar(rules, page, items, i, blocks)
    requires items[i].RawItem? && items[i].text.Some?
    requires Chars(blocks) + |Normalize(rules, items[i].text.value)| > MAX_CHARS
    ensures !Acceptable(rules, page, RawList(items))
  {
    if ItemOk(items[i]) {
      ItemAccepted(rules, page, items, i, blocks);
      PrefixTooLong(rules, page, items, i + 1);
    }
  }

  lemma {:induction false} ReadAll(rules: Rules, page: Page, result: RawResult, blocks: seq<Block>)
    requires !result.NotAList? && ReadSoFar(rules, page, ItemsOf(result), |ItemsOf(result)|, blocks) && Chars(blocks) <= MAX_CHARS
    ensures Acceptable(rules, page, result) && blocks == BlocksOf(rules, page, ItemsOf(result))
  {
    assert ItemsOf(result)[..|ItemsOf(result)|] == ItemsOf(result);
  }

  lemma {:induction false} SizedNext(blocks: seq<Block>, b: Block)
    requires Sized(blocks) && |blocks| < MAX_BLOCKS && Chars(blocks + [b]) <= MAX_CHARS && BoxInRange(b.box)
    ensures Sized(blocks + [b])
  {
  }

  /** One turn of the summariser's loop: the text and its count, the box, the score. */
  method SummarizeItem(rules: Rules, page: Page, items: seq<RawItem>, i: nat, ghost blocks: seq<Block>, t: Totals)
    returns (r: Option<Totals>, ghost blocks': seq<Block>)
    requires PageOk(page) && i == |blocks| < |items| && ReadSoFar(rules, page, items, i, blocks) && Tracks(rules, blocks, t)
    ensures r.None? ==> !Acceptable(rules, page, RawList(items))
    ensures r.Some? ==> ReadSoFar(rules, page, items, i + 1, blocks') && Tracks(rules, blocks', r.value) && |blocks'| == i + 1
  {
    r, blocks' := None, blocks;
    var item := items[i];
    if item.NotAnItem? || item.text.None? {
      return;
    }
    var text := Normalize(rules, item.text.value);
    if t.chars + |text| > MAX_CHARS {
      ItemTooLong(rules, page, items, i, blocks);
      return;
    }
    var rounded := RoundedBox(page, item.box);
    if rounded.None? || item.score.NotNumeric? || item.score.NotFinite? {
      return;
    }
    var b := Block(rounded.value, Clamped(PPM, item.score.value * PPM as real), i, text);
    assert b == BlockOf(rules, page, item, i);
    ItemAdds(rules, page, items, i, blocks, b);
    var t' := Absorb(rules, blocks, b, t);
    r, blocks' := Some(t'), blocks + [b];
  }

  /** _summarize_ocr. It refuses exactly the results that are not acceptable, and its summary is a
      function of the blocks of an acceptable one. */
  method SummarizeOcr(h: bytes -> Digest, rules: Rules, page: Page, result: RawResult) returns (r: Option<Summary>)
    requires PageOk(page)
    ensures r.Some? <==> Acceptable(rules, page, result)
    ensures r.Some? ==> Sized(BlocksOf(rules, page, ItemsOf(result)))
    ensures r.Some? ==> r.value == SummaryOf(h, rules, BlocksOf(rules, page, ItemsOf(result)))
  {
    if result.NotAList? || |ItemsOf(result)| > MAX_BLOCKS {
      return None;
    }
    var items := ItemsOf(result);
    var t := Start(rules);
    EmptyTracks(rules);
    ghost var blocks: seq<Block> := [];
    var i := 0;
    while i < |items|
      invariant 0 <= i <= |items| && |blocks| == i
      invariant ReadSoFar(rules, page, items, i, blocks) && Tracks(rules, blocks, t)
    {
      var next;
      next, blocks := SummarizeItem(rules, page, items, i, blocks, t);
      if next.None? {
        return None;
      }
      t := next.value;
      i := i + 1;
    }
    ReadAll(rules, page, result, blocks);
    r := Some(Conclude(h, rules, blocks, t));
  }

  function Conclude(h: bytes -> Digest, rules: Rules, ghost blocks: seq<Block>, t: Totals): (s: Summary)
    requires Tracks(rules, blocks, t)
    ensures s == SummaryOf(h, rules, blocks)
  {
    var rated := |t.ppms| != 0 && t.nonblank > 0;
    Summary(
      h(t.box), t.union, if rated then Some(Mean(t.ppms)) else None, if rated then Some(Least(t.ppms)) else None,
      |t.ppms|, t.chars, t.nonblank, h(t.text))
  }

  /** One turn of the block pass. */
  method NormalizeItem(rules: Rules, page: Page, items: seq<RawItem>, i: nat, blocks: seq<Block>, total: nat)
    returns (r: Option<Block>)
    requires i < |items| && ReadSoFar(rules, page, items, i, blocks) && total == Chars(blocks)
    ensures r.None? ==> !Acceptable(rules, page, RawList(items))
    ensures r.Some? ==> ReadSoFar(rules, page, items, i + 1, blocks + [r.value])
    ensures r.Some? ==> total + |r.value.text| == Chars(blocks + [r.value]) <= MAX_CHARS
  {
    var item := items[i];
    if item.NotAnItem? || item.text.None? {
      return None;
    }
    var normalized := Normalize(rules, item.text.value);
    if total + |normalized| > MAX_CHARS {
      ItemTooLong(rules, page, items, i, blocks);
      return None;
    }
    var rounded := RoundedBox(page, item.box);
    if rounded.None? || !item.score.Finite? {
      return None;
    }
    ItemAccepted(rules, page, items, i, blocks);
    r := Some(Block(rounded.value, PpmOf(item.score.value), i, normalized));
  }

  /** _normalize_result_blocks: the block pass succeeds exactly where the summariser does. */
  method NormalizeBlocks(rules: Rules, page: Page, result: RawResult) returns (r: Option<seq<Block>>)
    ensures r.Some? <==> Acceptable(rules, page, result)
    ensures r.Some? ==> r.value == BlocksOf(rules, page, ItemsOf(result))
  {
    if result.NotAList? || |ItemsOf(result)| > MAX_BLOCKS {
      return None;
    }
    var items := ItemsOf(result);
    var blocks: seq<Block> := [];
    var total := 0;
    var i := 0;
    while i < |items|
      invariant 0 <= i <= |items|
      invariant ReadSoFar(rules, page, items, i, blocks)
      invariant total == Chars(blocks) <= MAX_CHARS
    {
      var next := NormalizeItem(rules, page, items, i, blocks, total);
      if next.None? {
        return None;
      }
      total := total + |next.value.text|;
      blocks := blocks + [next.value];
      i := i + 1;
    }
    ReadAll(rules, page, result, blocks);
    r := Some(blocks);
  }

  // ---------- what a summary says ----------

  lemma {:induction false} NonblankWithinChars(blank: char -> bool, blocks: seq<Block>)
    ensures NonblankChars(blank, blocks) <= Chars(blocks)
    ensures blocks == [] ==> NonblankChars(blank, blocks) == 0
  {
    if blocks != [] {
      NonblankWithinChars(blank, blocks[..|blocks| - 1]);
    }
  }

  lemma {:induction false} BlocksInPage(rules: Rules, page: Page, items: seq<RawItem>)
    requires ItemsOk(items)
    ensures var blocks := BlocksOf(rules, page, items);
      forall i :: 0 <= i < |blocks| ==> BoxInPage(page, blocks[i].box) && blocks[i].ppm <= PPM && blocks[i].index == i
  {
    forall i | 0 <= i < |items| ensures BoxInPage(page, BlocksOf(rules, page, items)[i].box) {
      PixelsInPage(page, items[i].box);
    }
  }

  lemma {:induction false} AcceptableSized(rules: Rules, page: Page, result: RawResult)
    requires PageOk(page) && Acceptable(rules, page, result)
    ensures Sized(BlocksOf(rules, page, ItemsOf(result)))
  {
    forall i | 0 <= i < |ItemsOf(result)| ensures BoxInRange(BlocksOf(rules, page, ItemsOf(result))[i].box) {
      PixelsInPage(page, ItemsOf(result)[i].box);
    }
  }

  /** Every summary: the union box lies in the page and is absent exactly for an empty list; the
      confidences are absent exactly when nothing but blanks was read, and otherwise least, mean,
      greatest and one million ascend. */
  lemma {:induction false} SummaryBounds(h: bytes -> Digest, rules: Rules, page: Page, result: RawResult)
    requires PageOk(page) && Acceptable(rules, page, result)
    ensures Sized(BlocksOf(rules, page, ItemsOf(result)))
    ensures var s := SummaryOf(h, rules, BlocksOf(rules, page, ItemsOf(result)));
      && s.nonblank <= s.chars <= MAX_CHARS && s.blocks <= MAX_BLOCKS
      && (s.union.None? <==> s.blocks == 0)
      && (s.union.Some? ==> RectInPage(page, s.union.value))
      && (s.mean.None? <==> s.nonblank == 0) && (s.least.None? <==> s.nonblank == 0)
      && (s.mean.Some? ==>
            var ppms := Ppms(BlocksOf(rules, page, ItemsOf(result)));
            s.least.value == Least(ppms) <= s.mean.value <= Greatest(ppms) <= PPM)
  {
    var blocks := BlocksOf(rules, page, ItemsOf(result));
    AcceptableSized(rules, page, result);
    BlocksInPage(rules, page, ItemsOf(result));
    NonblankWithinChars(rules.blank, blocks);
    if blocks != [] {
      UnionInPage(page, blocks);
      ConfidenceBounds(Ppms(blocks));
    }
  }

  // ---------- the F0-H adapter ----------

  /** The engine's three parallel lists, None where an attribute is missing. */
  datatype Output = Output(boxes: Option<seq<RawBox>>, texts: Option<seq<Option<string>>>, scores: Option<seq<Number>>)

  /** Four pairs that float() takes, finite or not. */
  predicate Convertible(box: RawBox) {
    && box.RawBox? && |box.points| == 4
    && forall i :: 0 <= i < 4 ==> box.points[i].RawPoint? && !box.points[i].x.NotNumeric? && !box.points[i].y.NotNumeric?
  }

  predicate NoOutput(o: Output) {
    o.boxes.None? && o.texts.None? && o.scores.None?
  }

  predicate Parallel(o: Output) {
    && o.boxes.Some? && o.texts.Some? && o.scores.Some?
    && |o.boxes.value| == |o.texts.value| == |o.scores.value| <= MAX_BLOCKS
    && forall i :: 0 <= i < |o.boxes.value| ==> Convertible(o.boxes.value[i])
  }

  function Zip(o: Output): (items: seq<RawItem>)
    requires Parallel(o)
  {
    seq(|o.texts.value|, i requires 0 <= i < |o.texts.value| =>
      RawItem(o.boxes.value[i], o.texts.value[i], o.scores.value[i]))
  }

  /** _adapt_output. */
  method AdaptOutput(o: Output) returns (r: Option<seq<RawItem>>)
    ensures r.Some? <==> NoOutput(o) || Parallel(o)
    ensures NoOutput(o) ==> r == Some([])
    ensures Parallel(o) ==> r == Some(Zip(o))
  {
    if o.boxes.None? && o.texts.None? && o.scores.None? {
      return Some([]);
    }
    if o.boxes.None? || o.texts.None? || o.scores.None? {
      return None;
    }
    var boxes, texts, scores := o.boxes.value, o.texts.value, o.scores.value;
    if |boxes| != |texts| || |texts| != |scores| || |texts| > MAX_BLOCKS {
      return None;
    }
    var adapted: seq<RawItem> := [];
    var i := 0;
    while i < |texts|
      invariant 0 <= i <= |texts| && |adapted| == i
      invariant forall k :: 0 <= k < i ==> Convertible(boxes[k]) && adapted[k] == RawItem(boxes[k], texts[k], scores[k])
    {
      if !Convertible(boxes[i]) {
        assert !Convertible(o.boxes.value[i]);
        return None;
      }
      adapted := adapted + [RawItem(boxes[i], texts[i], scores[i])];
      i := i + 1;
    }
    assert Parallel(o) && adapted == Zip(o);
    r := Some(adapted);
  }

  // ---------- the consumer ----------

  const MAX_COORDINATE := 1_000_000

  datatype Published = Published(summary: Summary, blocks: seq<Block>)

  predicate SmallBox(box: Box) {
    forall k :: 0 <= k < 4 ==> box[k].x <= MAX_COORDINATE && box[k].y <= MAX_COORDINATE
  }

  /** The box has a width and a height. */
  predicate ProperBox(box: Box) {
    Around(box).left < Around(box).right && Around(box).top < Around(box).bottom
  }

  predicate WireBlockOk(b: Block, index: nat) {
    b.ppm <= PPM && b.index == index && SmallBox(b.box)
  }

  function RoundedPixel(p: Pixel): Pixel {
    RoundInt(p.x);
    RoundInt(p.y);
    Pixel(Round(p.x as real), Round(p.y as real))
  }

  function RoundedPixels(box: Box): Box {
    [RoundedPixel(box[0]), RoundedPixel(box[1]), RoundedPixel(box[2]), RoundedPixel(box[3])]
  }

  /** A received block, adapted again: text normalised, coordinates and score rounded. */
  function Reread(rules: Rules, b: Block, index: nat): Block {
    RoundInt(b.ppm);
    Block(RoundedPixels(b.box), Round(b.ppm as real / PPM as real * PPM as real), index, Normalize(rules, b.text))
  }

  function RereadAll(rules: Rules, blocks: seq<Block>): (r: seq<Block>)
    ensures |r| == |blocks|
  {
    seq(|blocks|, i requires 0 <= i < |blocks| => Reread(rules, blocks[i], i))
  }

  predicate WireOk(rules: Rules, blocks: seq<Block>) {
    && |blocks| <= MAX_BLOCKS && Chars(RereadAll(rules, blocks)) <= MAX_CHARS
    && forall i :: 0 <= i < |blocks| ==> WireBlockOk(blocks[i], i)
  }

  lemma {:induction false} RereadAppend(rules: Rules, blocks: seq<Block>, i: nat)
    requires i < |blocks|
    ensures RereadAll(rules, blocks[..i + 1]) == RereadAll(rules, blocks[..i]) + [Reread(rules, blocks[i], i)]
  {
  }

  lemma {:induction false} RereadPrefix(rules: Rules, blocks: seq<Block>, i: nat)
    requires i <= |blocks|
    ensures Chars(RereadAll(rules, blocks[..i])) <= Chars(RereadAll(rules, blocks))
  {
    assert RereadAll(rules, blocks)[..i] == RereadAll(rules, blocks[..i]);
    CharsPrefix(RereadAll(rules, blocks), i);
  }

  lemma {:induction false} RereadNext(rules: Rules, blocks: seq<Block>, i: nat, out: seq<Block>, b: Block)
    requires i < |blocks| && out == RereadAll(rules, blocks[..i]) && b == Reread(rules, blocks[i], i)
    ensures out + [b] == RereadAll(rules, blocks[..i + 1])
    ensures Chars(out + [b]) == Chars(out) + |b.text| <= Chars(RereadAll(rules, blocks))
  {
    RereadAppend(rules, blocks, i);
    AppendChars(out, b);
    RereadPrefix(rules, blocks, i + 1);
  }

  /** out are the first i blocks, reread. */
  ghost predicate RereadSoFar(rules: Rules, blocks: seq<Block>, i: nat, out: seq<Block>) {
    && i <= |blocks| && out == RereadAll(rules, blocks[..i]) && Chars(out) <= MAX_CHARS
    && forall k :: 0 <= k < i ==> WireBlockOk(blocks[k], k)
  }

  /** The checks on one received block; refusing it is refusing them all. */
  method NextWireBlock(rules: Rules, blocks: seq<Block>, i: nat, ghost out: seq<Block>, total: nat) returns (r: Option<Block>)
    requires i < |blocks| && RereadSoFar(rules, blocks, i, out) && total == Chars(out)
    ensures r.None? ==> !WireOk(rules, blocks)
    ensures r.Some? ==> RereadSoFar(rules, blocks, i + 1, out + [r.value]) && Chars(out + [r.value]) == total + |r.value.text|
  {
    if !WireBlockOk(blocks[i], i) {
      return None;
    }
    var b := Reread(rules, blocks[i], i);
    RereadNext(rules, blocks, i, out, b);
    if total + |b.text| > MAX_CHARS {
      return None;
    }
    r := Some(b);
  }

  /** _validated_blocks, with adapt_output_parts. */
  method ValidatedBlocks(rules: Rules, blocks: seq<Block>) returns (r: Option<seq<Block>>)
    ensures r.Some? <==> WireOk(rules, blocks)
    ensures r.Some? ==> r.value == RereadAll(rules, blocks)
  {
    if |blocks| > MAX_BLOCKS {
      return None;
    }
    var out: seq<Block> := [];
    var total := 0;
    var i := 0;
    while i < |blocks|
      invariant 0 <= i <= |blocks|
      invariant RereadSoFar(rules, blocks, i, out) && total == Chars(out)
    {
      var b := NextWireBlock(rules, blocks, i, out, total);
      if b.None? {
        return None;
      }
      total := total + |b.value.text|;
      out := out + [b.value];
      i := i + 1;
    }
    assert blocks[..i] == blocks;
    r := Some(out);
  }

  predicate AllProper(blocks: seq<Block>) {
    forall i :: 0 <= i < |blocks| ==> ProperBox(blocks[i].box)
  }

  predicate AllInPage(page: Page, blocks: seq<Block>) {
    forall i :: 0 <= i < |blocks| ==> BoxInPage(page, blocks[i].box)
  }

  predicate Indexed(blocks: seq<Block>) {
    forall i :: 0 <= i < |blocks| ==> blocks[i].index == i
  }

  lemma {:induction false} RereadBoxes(rules: Rules, blocks: seq<Block>)
    ensures forall i :: 0 <= i < |blocks| ==> RereadAll(rules, blocks)[i].box == blocks[i].box
    ensures Indexed(RereadAll(rules, blocks))
  {
    forall i | 0 <= i < |blocks| ensures RereadAll(rules, blocks)[i].box == blocks[i].box {
      RereadPixels(blocks[i].box);
    }
  }

  lemma {:induction false} RereadSized(rules: Rules, blocks: seq<Block>)
    requires WireOk(rules, blocks)
    ensures Sized(RereadAll(rules, blocks))
  {
    RereadBoxes(rules, blocks);
    forall i | 0 <= i < |blocks| ensures BoxInRange(RereadAll(rules, blocks)[i].box) {
      assert WireBlockOk(blocks[i], i);
    }
  }

  lemma {:induction false} RereadProper(rules: Rules, page: Page, blocks: seq<Block>)
    ensures AllProper(RereadAll(rules, blocks)) == AllProper(blocks)
    ensures AllInPage(page, RereadAll(rules, blocks)) == AllInPage(page, blocks)
  {
    RereadBoxes(rules, blocks);
    assert forall k :: 0 <= k < |blocks| ==> ProperBox(RereadAll(rules, blocks)[k].box) == ProperBox(blocks[k].box);
    assert forall k :: 0 <= k < |blocks| ==> BoxInPage(page, RereadAll(rules, blocks)[k].box) == BoxInPage(page, blocks[k].box);
  }

  lemma {:induction false} SizedPrefix(blocks: seq<Block>, k: nat)
    requires Sized(blocks) && k < |blocks|
    ensures Sized(blocks[..k]) && Sized(blocks[..k] + [blocks[k]]) && blocks[..k] + [blocks[k]] == blocks[..k + 1]
  {
    CharsPrefix(blocks, k);
    CharsPrefix(blocks, k + 1);
    assert blocks[..k] + [blocks[k]] == blocks[..k + 1];
  }

  method AbsorbAt(rules: Rules, blocks: seq<Block>, i: nat, t: Totals) returns (t': Totals)
    requires Sized(blocks) && i < |blocks| && blocks[i].index == i && Tracks(rules, blocks[..i], t)
    ensures Tracks(rules, blocks[..i + 1], t')
  {
    SizedPrefix(blocks, i);
    t' := Absorb(rules, blocks[..i], blocks[i], t);
  }

  lemma {:induction false} ProperNext(blocks: seq<Block>, i: nat)
    requires i < |blocks|
    ensures AllProper(blocks[..i]) && ProperBox(blocks[i].box) ==> AllProper(blocks[..i + 1])
    ensures !ProperBox(blocks[i].box) ==> !AllProper(blocks)
  {
  }

  /** The loop of summarize_blocks, which stops at a box without extent. */
  method SummarizeProper(h: bytes -> Digest, rules: Rules, blocks: seq<Block>) returns (r: Option<Summary>)
    requires Sized(blocks) && Indexed(blocks)
    ensures r.Some? <==> AllProper(blocks)
    ensures r.Some? ==> r.value == SummaryOf(h, rules, blocks)
  {
    var t := Start(rules);
    EmptyTracks(rules);
    var i := 0;
    ghost var prefix: seq<Block> := blocks[..0];
    assert prefix == [];
    while i < |blocks|
      invariant 0 <= i <= |blocks| && prefix == blocks[..i]
      invariant Tracks(rules, prefix, t)
      invariant AllProper(prefix)
    {
      ProperNext(blocks, i);
      if !ProperBox(blocks[i].box) {
        return None;
      }
      t := AbsorbAt(rules, blocks, i, t);
      i := i + 1;
      prefix := blocks[..i];
    }
    WholePrefix(blocks, prefix);
    r := Some(Conclude(h, rules, prefix, t));
  }

  lemma {:induction false} WholePrefix(blocks: seq<Block>, prefix: seq<Block>)
    requires prefix == blocks[..|blocks|]
    ensures prefix == blocks
  {
  }

  /** summarize_blocks. */
  method SummarizeBlocks(h: bytes -> Digest, rules: Rules, received: seq<Block>) returns (r: Option<Summary>)
    ensures r.Some? <==> WireOk(rules, received) && AllProper(received)
    ensures r.Some? ==> Sized(RereadAll(rules, received)) && r.value == SummaryOf(h, rules, RereadAll(rules, received))
  {
    var validated := ValidatedBlocks(rules, received);
    r := None;
    if validated.Some? {
      RereadSized(rules, received);
      RereadBoxes(rules, received);
      RereadProper(rules, Page(0, 0), received);
      r := SummarizeProper(h, rules, validated.value);
    }
  }

  /** What validate_private_result asks of the published blocks and summary. */
  ghost predicate Valid(h: bytes -> Digest, rules: Rules, page: Page, p: Published) {
    && WireOk(rules, p.blocks) && AllInPage(page, p.blocks) && AllProper(p.blocks)
    && var blocks := RereadAll(rules, p.blocks);
       && WireOk(rules, blocks) && Sized(RereadAll(rules, blocks))
       && p.summary == SummaryOf(h, rules, RereadAll(rules, blocks))
  }

  method ValidateResult(h: bytes -> Digest, rules: Rules, page: Page, p: Published) returns (ok: bool)
    ensures ok <==> Valid(h, rules, page, p)
  {
    var validated := ValidatedBlocks(rules, p.blocks);
    ok := false;
    if validated.Some? {
      RereadProper(rules, page, p.blocks);
      if AllInPage(page, validated.value) {
        var summary := SummarizeBlocks(h, rules, validated.value);
        ok := summary.Some? && p.summary == summary.value;
      }
    }
  }

  lemma {:induction false} RereadPixels(box: Box)
    ensures RoundedPixels(box) == box
  {
    forall k | 0 <= k < 4 ensures RoundedPixels(box)[k] == box[k] {
      RoundInt(box[k].x);
      RoundInt(box[k].y);
    }
  }

  /** Rereading only normalises the text; whole numbers survive the detour through floats. */
  lemma {:induction false} RereadOnlyNormalizes(rules: Rules, b: Block, index: nat)
    ensures Reread(rules, b, index) == Block(b.box, b.ppm, index, Normalize(rules, b.text))
  {
    RereadPixels(b.box);
    RoundInt(b.ppm);
    assert b.ppm as real / PPM as real * PPM as real == b.ppm as real;
  }

  /** Rereading a runner's blocks gives them back. */
  lemma {:induction false} RereadOfRunner(rules: Rules, page: Page, items: seq<RawItem>)
    requires NfcLaws(rules.nfc) && ItemsOk(items)
    ensures RereadAll(rules, BlocksOf(rules, page, items)) == BlocksOf(rules, page, items)
  {
    var blocks := BlocksOf(rules, page, items);
    forall i | 0 <= i < |blocks| ensures Reread(rules, blocks[i], i) == blocks[i] {
      RereadOnlyNormalizes(rules, blocks[i], i);
      NormalizeIdempotent(rules, items[i].text.value);
    }
  }

  lemma {:induction false} RunnerIsWire(rules: Rules, page: Page, items: seq<RawItem>)
    requires NfcLaws(rules.nfc) && ItemsOk(items) && |items| <= MAX_BLOCKS && Chars(BlocksOf(rules, page, items)) <= MAX_CHARS
    ensures var blocks := BlocksOf(rules, page, items);
      WireOk(rules, blocks) <==> forall i :: 0 <= i < |blocks| ==> SmallBox(blocks[i].box)
  {
    var blocks := BlocksOf(rules, page, items);
    RereadOfRunner(rules, page, items);
    forall i | 0 <= i < |blocks| ensures WireBlockOk(blocks[i], i) <==> SmallBox(blocks[i].box) {
      assert blocks[i] == BlockOf(rules, page, items[i], i);
    }
  }

  /** The body-free summary is a function of the emitted blocks: on every result the runner
      accepts, the consumer recomputes the very same summary, and it takes the result exactly when
      every rounded box has a width and a height and no coordinate passes one million. */
  lemma {:induction false} ConsumerAgrees(h: bytes -> Digest, rules: Rules, page: Page, result: RawResult)
    requires PageOk(page) && NfcLaws(rules.nfc) && Acceptable(rules, page, result)
    ensures Sized(BlocksOf(rules, page, ItemsOf(result)))
    ensures var blocks := BlocksOf(rules, page, ItemsOf(result));
      Valid(h, rules, page, Published(SummaryOf(h, rules, blocks), blocks))
      <==> (forall i :: 0 <= i < |blocks| ==> ProperBox(blocks[i].box) && SmallBox(blocks[i].box))
  {
    var items := ItemsOf(result);
    AcceptableSized(rules, page, result);
    RereadOfRunner(rules, page, items);
    BlocksInPage(rules, page, items);
    RunnerIsWire(rules, page, items);
  }

  lemma {:induction false} SingleAccepted(rules: Rules, page: Page, item: RawItem)
    requires ItemOk(item) && item.text == Some("a") && |rules.nfc("a")| <= MAX_CHARS
    ensures Acceptable(rules, page, RawList([item]))
    ensures BlocksOf(rules, page, [item]) == [BlockOf(rules, page, item, 0)]
  {
    NothingToReplace("a");
    var blocks := BlocksOf(rules, page, [item]);
    assert blocks[..0] == [] && Chars(blocks) == |rules.nfc("a")|;
  }

  /** The runner accepts the one-item result; the consumer does not take what becomes of it. */
  ghost predicate AcceptedThenRefused(h: bytes -> Digest, rules: Rules, page: Page, item: RawItem) {
    && Acceptable(rules, page, RawList([item]))
    && var blocks := BlocksOf(rules, page, [item]);
       Sized(blocks) && !Valid(h, rules, page, Published(SummaryOf(h, rules, blocks), blocks))
  }

  function Item(a: RawPoint, b: RawPoint): RawItem {
    RawItem(RawBox([a, a, b, b]), Some("a"), Finite(0.9))
  }

  /** A box thinner than a pixel, on a small page. */
  lemma {:induction false} ThinBoxRefused(h: bytes -> Digest, rules: Rules)
    requires NfcLaws(rules.nfc) && |rules.nfc("a")| <= MAX_CHARS
    ensures AcceptedThenRefused(h, rules, Page(10, 10),
                                Item(RawPoint(Finite(1.2), Finite(2.0)), RawPoint(Finite(1.4), Finite(5.0))))
  {
    var page := Page(10, 10);
    var item := Item(RawPoint(Finite(1.2), Finite(2.0)), RawPoint(Finite(1.4), Finite(5.0)));
    SingleAccepted(rules, page, item);
    ConsumerAgrees(h, rules, page, RawList([item]));
    var box := PixelsOf(page, item.box);
    assert box[0].x == 1 && box[1].x == 1 && box[2].x == 1 && box[3].x == 1;
    assert !ProperBox(BlocksOf(rules, page, [item])[0].box);
  }

  /** A box beyond one million pixels, on a page that is wide enough and within the pixel limit. */
  lemma {:induction false} FarBoxRefused(h: bytes -> Digest, rules: Rules)
    requires NfcLaws(rules.nfc) && |rules.nfc("a")| <= MAX_CHARS
    ensures 2_000_000 * 8 <= MAX_PIXELS
    ensures AcceptedThenRefused(h, rules, Page(2_000_000, 8),
                                Item(RawPoint(Finite(1.0), Finite(2.0)), RawPoint(Finite(1_500_000.0), Finite(5.0))))
  {
    var page := Page(2_000_000, 8);
    var item := Item(RawPoint(Finite(1.0), Finite(2.0)), RawPoint(Finite(1_500_000.0), Finite(5.0)));
    SingleAccepted(rules, page, item);
    ConsumerAgrees(h, rules, page, RawList([item]));
    var box := PixelsOf(page, item.box);
    assert box[2].x == 1_500_000;
    assert !SmallBox(BlocksOf(rules, page, [item])[0].box);
  }
}
