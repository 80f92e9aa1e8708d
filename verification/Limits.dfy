/** The limits of the parts that read foreign input, and what becomes of input beyond them. */
module Limits {
  import opened Wrappers
  import opened Bytes
  import Envelope
  import Ocr
  import OcrMeaning
  import Backup

  /** An envelope is refused for its header's length exactly when the four bytes that give it say zero
      or more than 4096, whatever follows them. */
  lemma {:induction false} HeaderLength(input: bytes, h: bytes -> Digest)
    ensures Envelope.Decode(input, h) == Envelope.Err(Envelope.EnvelopeHeaderLimit) <==>
      |input| >= 4 && (FromBigEndian(input[..4]) == 0 || FromBigEndian(input[..4]) > 4096)
  {
  }

  /** A point of two finite coordinates. */
  predicate FinitePoint(p: Ocr.RawPoint) {
    p.RawPoint? && p.x.Finite? && p.y.Finite?
  }

  /** An item of four finite points, a text and a finite score. */
  predicate WholeItem(item: Ocr.RawItem) {
    && item.RawItem? && item.text.Some? && item.score.Finite? && item.box.RawBox? && |item.box.points| == 4
    && FinitePoint(item.box.points[0]) && FinitePoint(item.box.points[1])
    && FinitePoint(item.box.points[2]) && FinitePoint(item.box.points[3])
  }

  /** A result of the recogniser is taken exactly when it is absent, or a list of at most 1024 whole items
      whose normalised texts come to at most a million characters together. */
  lemma {:induction false} ResultTaken(rules: Ocr.Rules, page: Ocr.Page, result: Ocr.RawResult)
    ensures Ocr.Acceptable(rules, page, result) <==>
      match result
      case NotAList => false
      case Missing => true
      case RawList(items) =>
        && |items| <= 1024 && (forall i :: 0 <= i < |items| ==> WholeItem(items[i]))
        && Ocr.ItemsOk(items) && |OcrMeaning.Joined(Ocr.BlocksOf(rules, page, items))| <= 1_000_000
  {
    if result.RawList? {
      if Ocr.ItemsOk(result.items) {
        OcrMeaning.CountsOfJoined(rules.blank, Ocr.BlocksOf(rules, page, result.items));
      }
      forall i | 0 <= i < |result.items| ensures Ocr.ItemOk(result.items[i]) <==> WholeItem(result.items[i]) {
      }
    }
  }

  /** A manifest file is refused for its size exactly when it has more than 65536 bytes, whatever they are. */
  lemma {:induction false} ManifestLength(raw: bytes, projectId: string, database: string)
    ensures Backup.CheckDocument(raw, projectId, database) == Backup.Err(Backup.ManifestSizeInvalid) <==> |raw| > 65536
  {
  }
}
