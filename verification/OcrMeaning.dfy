/** What the blocks and the summary of Ocr say about the items they are made of, without the functions
    that make them: line ends, nearest pixels, character counts, means, and the digest streams as a
    reader takes them apart. */
module OcrMeaning {
  import opened Wrappers
  import opened Bytes
  import Json
  import opened Ocr

  // ---------- line ends ----------

  /** A text is normalised as NFC of its lines, whatever ended them. */
  lemma {:induction false} NormalizeIsOnePass(rules: Rules, text: string)
    ensures Normalize(rules, text) == rules.nfc(OneNewline(text))
  {
    NewlinesInOnePass(text);
  }

  /** A line without a carriage return, its end, and what follows. */
  lemma {:induction false} LineEnds(line: string, rest: string)
    requires '\r' !in line
    ensures OneNewline(line + "\r\n" + rest) == line + "\n" + OneNewline(rest)
    ensures OneNewline(line + "\n" + rest) == line + "\n" + OneNewline(rest)
    ensures (rest == "" || rest[0] != '\n') ==> OneNewline(line + "\r" + rest) == line + "\n" + OneNewline(rest)
  {
    if line == "" {
      FirstLineEnd(rest);
    } else {
      assert line[0] in line && forall c :: c in line[1..] ==> c in line;
      LineEnds(line[1..], rest);
      FirstCharacter(line, "\r\n" + rest);
      FirstCharacter(line, "\n" + rest);
      FirstCharacter(line, "\r" + rest);
      assert line + "\r\n" + rest == line + ("\r\n" + rest) && line[1..] + "\r\n" + rest == line[1..] + ("\r\n" + rest);
      assert line + "\n" + rest == line + ("\n" + rest) && line[1..] + "\n" + rest == line[1..] + ("\n" + rest);
      assert line + "\r" + rest == line + ("\r" + rest) && line[1..] + "\r" + rest == line[1..] + ("\r" + rest);
      assert [line[0]] + (line[1..] + "\n" + OneNewline(rest)) == line + "\n" + OneNewline(rest);
    }
  }

  lemma {:induction false} FirstLineEnd(rest: string)
    ensures OneNewline("" + "\r\n" + rest) == "" + "\n" + OneNewline(rest)
    ensures OneNewline("" + "\n" + rest) == "" + "\n" + OneNewline(rest)
    ensures (rest == "" || rest[0] != '\n') ==> OneNewline("" + "\r" + rest) == "" + "\n" + OneNewline(rest)
  {
    assert ("\r\n" + rest)[2..] == rest && ("\n" + rest)[1..] == rest && ("\r" + rest)[1..] == rest;
    assert "" + "\r\n" + rest == "\r\n" + rest && "" + "\n" + rest == "\n" + rest && "" + "\r" + rest == "\r" + rest;
    assert "" + "\n" + OneNewline(rest) == "\n" + OneNewline(rest);
  }

  lemma {:induction false} FirstCharacter(line: string, more: string)
    requires line != "" && line[0] != '\r'
    ensures OneNewline(line + more) == [line[0]] + OneNewline(line[1..] + more)
  {
    assert (line + more)[1..] == line[1..] + more;
  }

  /** The same item but for the line ends of its text. */
  predicate SameLines(a: RawItem, b: RawItem) {
    || a == b
    || (a.RawItem? && b.RawItem? && a.box == b.box && a.score == b.score && a.text.Some? && b.text.Some?
        && OneNewline(a.text.value) == OneNewline(b.text.value))
  }

  predicate AllSameLines(a: seq<RawItem>, b: seq<RawItem>) {
    |a| == |b| && forall i :: 0 <= i < |a| ==> SameLines(a[i], b[i])
  }

  lemma {:induction false} SameBlock(rules: Rules, page: Page, a: RawItem, b: RawItem, index: nat)
    requires SameLines(a, b)
    ensures ItemOk(a) <==> ItemOk(b)
    ensures ItemOk(a) ==> BlockOf(rules, page, a, index) == BlockOf(rules, page, b, index)
  {
    if a.RawItem? && a.text.Some? && b.RawItem? && b.text.Some? {
      NormalizeIsOnePass(rules, a.text.value);
      NormalizeIsOnePass(rules, b.text.value);
    }
  }

  /** Results whose texts differ in their line ends only are accepted alike, with equal blocks and equal
      summaries. */
  lemma {:induction false} LineEndsDoNotShow(h: bytes -> Digest, rules: Rules, page: Page, a: seq<RawItem>, b: seq<RawItem>)
    requires PageOk(page) && AllSameLines(a, b)
    ensures Acceptable(rules, page, RawList(a)) <==> Acceptable(rules, page, RawList(b))
    ensures Acceptable(rules, page, RawList(a)) ==>
      && BlocksOf(rules, page, a) == BlocksOf(rules, page, b) && Sized(BlocksOf(rules, page, a))
      && SummaryOf(h, rules, BlocksOf(rules, page, a)) == SummaryOf(h, rules, BlocksOf(rules, page, b))
  {
    forall i | 0 <= i < |a|
      ensures ItemOk(a[i]) <==> ItemOk(b[i])
      ensures ItemOk(a[i]) ==> BlockOf(rules, page, a[i], i) == BlockOf(rules, page, b[i], i)
    {
      SameBlock(rules, page, a[i], b[i], i);
    }
    if ItemsOk(a) {
      assert BlocksOf(rules, page, a) == BlocksOf(rules, page, b);
    }
    if Acceptable(rules, page, RawList(a)) {
      AcceptableSized(rules, page, RawList(a));
    }
  }

  // ---------- blocks ----------

  /** The integer from 0 to the limit that is nearest to x, a tie being even. */
  predicate NearestWithin(limit: nat, x: real, r: nat) {
    && r <= limit
    && (x <= 0.0 ==> r == 0) && (x >= limit as real ==> r == limit)
    && (0.0 <= x <= limit as real ==> -0.5 <= r as real - x <= 0.5)
    && (0.0 <= x <= limit as real && (r as real - x == 0.5 || x - r as real == 0.5) ==> r % 2 == 0)
  }

  lemma {:induction false} ClampedIsNearest(limit: nat, x: real)
    ensures NearestWithin(limit, x, Clamped(limit, x))
  {
    RoundIsNearest(x);
    RoundInt(0);
    RoundInt(limit);
    if x <= 0.0 {
      RoundMonotone(x, 0.0);
    }
    if x >= limit as real {
      RoundMonotone(limit as real, x);
    }
    if 0.0 <= x <= limit as real {
      RoundMonotone(0.0, x);
      RoundMonotone(x, limit as real);
    }
  }

  lemma {:induction false} NearestUnique(limit: nat, x: real, r: nat, s: nat)
    requires NearestWithin(limit, x, r) && NearestWithin(limit, x, s)
    ensures r == s
  {
  }

  /** A corner is the pixel of the page that is nearest to the point. */
  predicate CornerOf(page: Page, p: RawPoint, q: Pixel) {
    && p.RawPoint? && p.x.Finite? && p.y.Finite?
    && NearestWithin(page.width, p.x.value, q.x) && NearestWithin(page.height, p.y.value, q.y)
  }

  /** What a block says of its item. */
  ghost predicate Says(rules: Rules, page: Page, item: RawItem, index: nat, b: Block) {
    && item.RawItem? && item.box.RawBox? && |item.box.points| == 4 && item.text.Some? && item.score.Finite?
    && (forall k :: 0 <= k < 4 ==> CornerOf(page, item.box.points[k], b.box[k]))
    && NearestWithin(1_000_000, item.score.value * 1_000_000.0, b.ppm)
    && b.index == index && b.text == rules.nfc(OneNewline(item.text.value))
  }

  /** Each accepted item has the one block that says this of it. */
  lemma {:induction false} BlockSays(rules: Rules, page: Page, item: RawItem, index: nat, b: Block)
    requires ItemOk(item)
    ensures Says(rules, page, item, index, b) <==> b == BlockOf(rules, page, item, index)
  {
    var made := BlockOf(rules, page, item, index);
    NormalizeIsOnePass(rules, item.text.value);
    ClampedIsNearest(PPM, item.score.value * PPM as real);
    forall k | 0 <= k < 4 ensures CornerOf(page, item.box.points[k], made.box[k]) {
      ClampedIsNearest(page.width, item.box.points[k].x.value);
      ClampedIsNearest(page.height, item.box.points[k].y.value);
    }
    if Says(rules, page, item, index, b) {
      NearestUnique(PPM, item.score.value * PPM as real, b.ppm, made.ppm);
      forall k | 0 <= k < 4 ensures b.box[k] == made.box[k] {
        SameCorner(page, item.box.points[k], b.box[k], made.box[k]);
      }
      assert b.box == made.box;
    }
  }

  lemma {:induction false} SameCorner(page: Page, p: RawPoint, q: Pixel, r: Pixel)
    requires CornerOf(page, p, q) && CornerOf(page, p, r)
    ensures q == r
  {
    NearestUnique(page.width, p.x.value, q.x, r.x);
    NearestUnique(page.height, p.y.value, q.y, r.y);
  }

  // ---------- counts and means ----------

  function Joined(blocks: seq<Block>): string {
    if blocks == [] then "" else blocks[0].text + Joined(blocks[1..])
  }

  function Visible(blank: char -> bool, s: string): string {
    if s == "" then "" else (if blank(s[0]) then "" else [s[0]]) + Visible(blank, s[1..])
  }

  lemma {:induction false} VisibleConcat(blank: char -> bool, a: string, b: string)
    ensures Visible(blank, a + b) == Visible(blank, a) + Visible(blank, b)
  {
    if a == "" {
      assert a + b == b;
    } else {
      assert (a + b)[1..] == a[1..] + b;
      VisibleConcat(blank, a[1..], b);
    }
  }

  lemma {:induction false} NonblankIsVisible(blank: char -> bool, s: string)
    ensures Nonblank(blank, s) == |Visible(blank, s)|
  {
    if s != "" {
      NonblankIsVisible(blank, s[1..]);
    }
  }

  lemma {:induction false} JoinedLast(blocks: seq<Block>)
    requires blocks != []
    ensures Joined(blocks) == Joined(blocks[..|blocks| - 1]) + blocks[|blocks| - 1].text
  {
    var n := |blocks| - 1;
    if n > 0 {
      JoinedLast(blocks[1..]);
      assert blocks[1..][..n - 1] == blocks[..n][1..];
    }
  }

  /** The counts are those of the joined text. */
  lemma {:induction false} CountsOfJoined(blank: char -> bool, blocks: seq<Block>)
    ensures Chars(blocks) == |Joined(blocks)| && NonblankChars(blank, blocks) == |Visible(blank, Joined(blocks))|
  {
    if blocks != [] {
      var n := |blocks| - 1;
      CountsOfJoined(blank, blocks[..n]);
      JoinedLast(blocks);
      VisibleConcat(blank, Joined(blocks[..n]), blocks[n].text);
      NonblankIsVisible(blank, blocks[n].text);
    }
  }

  /** A sum is additive, and that of one value is the value. */
  lemma {:induction false} SumAdds(a: seq<nat>, b: seq<nat>, v: nat)
    ensures Sum(a + b) == Sum(a) + Sum(b) && Sum([v]) == v
  {
    assert [v][..0] == [] && Sum([]) == 0;
    if b == [] {
      assert a + b == a;
    } else {
      var n := |b| - 1;
      SumAdds(a, b[..n], v);
      assert (a + b)[..|a| + n] == a + b[..n] && (a + b)[|a| + n] == b[n];
    }
  }

  /** The mean is the quotient rounded to the nearest integer, a half being rounded up. */
  lemma {:induction false} MeanRoundsUp(values: seq<nat>)
    requires values != []
    ensures -|values| < 2 * (|values| * Mean(values) - Sum(values)) <= |values|
  {
    var n, sum := |values|, Sum(values);
    var mean := (sum + n / 2) / n;
    assert sum + n / 2 == n * mean + (sum + n / 2) % n;
  }

  // ---------- the digest streams, taken apart ----------

  /** Reads items that are preceded by their index in four bytes and their length in `width` bytes. */
  function Unframe(start: nat, data: bytes, width: nat): Option<seq<bytes>>
    decreases |data|
  {
    if data == [] then Some([])
    else if |data| < 4 + width || FromBigEndian(data[..4]) != start then None
    else
      var n := FromBigEndian(data[4..4 + width]);
      if |data| < 4 + width + n then None
      else
        var rest :- Unframe(start + 1, data[4 + width + n..], width);
        Some([data[4 + width..4 + width + n]] + rest)
  }

  /** A frame in front of more data, cut into its index, length, item and the rest. */
  lemma {:induction false} FrameCut(index: nat, item: bytes, width: nat, rest: bytes)
    requires index < Pow256(4) && |item| < Pow256(width)
    ensures var data := Frame(index, item, width) + rest;
      && |data| == 4 + width + |item| + |rest|
      && data[..4] == BigEndian(index, 4) && data[4..4 + width] == BigEndian(|item|, width)
      && data[4 + width..4 + width + |item|] == item && data[4 + width + |item|..] == rest
  {
  }

  /** The stream of framed items is read back. */
  lemma {:induction false} UnframeOfFramed(start: nat, items: seq<bytes>, width: nat)
    requires Framable(start, items, width)
    ensures Unframe(start, Framed(start, items, width), width) == Some(items)
    decreases |items|
  {
    if items != [] {
      var rest := Framed(start + 1, items[1..], width);
      FrameCut(start, items[0], width, rest);
      BigEndianRoundTrip(start, 4);
      BigEndianRoundTrip(|items[0]|, width);
      UnframeOfFramed(start + 1, items[1..], width);
      assert items == [items[0]] + items[1..];
    }
  }

  /** A box in the stream is the JSON array of its corners, each an array of its x and its y. */
  lemma {:induction false} BoxReads(box: Box)
    ensures AllAscii(BoxBytes(box))
    ensures Json.Loads(ToAscii(BoxBytes(box)))
         == Json.Parsed(Json.Arr([
              Json.Arr([Json.Int(box[0].x), Json.Int(box[0].y)]), Json.Arr([Json.Int(box[1].x), Json.Int(box[1].y)]),
              Json.Arr([Json.Int(box[2].x), Json.Int(box[2].y)]), Json.Arr([Json.Int(box[3].x), Json.Int(box[3].y)])]), "")
  {
    Json.PrintAscii(BoxJson(box));
    AsciiRoundTrip(Json.Print(BoxJson(box)));
    Json.LoadsOfPrint(BoxJson(box));
  }

  /** Behind their prefixes the two preimages hold the encoded texts and the boxes, block by block. */
  lemma {:induction false} PreimagesRead(rules: Rules, blocks: seq<Block>)
    requires Sized(blocks)
    ensures var text, box := TextPreimage(rules, blocks), BoxPreimage(rules, blocks);
      && rules.textPrefix <= text && rules.boxPrefix <= box
      && Unframe(0, text[|rules.textPrefix|..], 8) == Some(seq(|blocks|, i requires 0 <= i < |blocks| => Utf8(blocks[i].text)))
      && Unframe(0, box[|rules.boxPrefix|..], 4) == Some(seq(|blocks|, i requires 0 <= i < |blocks| => BoxBytes(blocks[i].box)))
  {
    SizedFramable(blocks);
    UnframeOfFramed(0, Texts(blocks), 8);
    UnframeOfFramed(0, Boxes(blocks), 4);
    assert TextPreimage(rules, blocks)[|rules.textPrefix|..] == Framed(0, Texts(blocks), 8);
    assert BoxPreimage(rules, blocks)[|rules.boxPrefix|..] == Framed(0, Boxes(blocks), 4);
    assert Texts(blocks) == seq(|blocks|, i requires 0 <= i < |blocks| => Utf8(blocks[i].text));
    assert Boxes(blocks) == seq(|blocks|, i requires 0 <= i < |blocks| => BoxBytes(blocks[i].box));
  }
}
