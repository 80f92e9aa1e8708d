/** The success token as a part of a file or text, and the reason codes by their characters. */
module Tokens {
  import opened Wrappers
  import opened Bytes
  import Batches
  import R = Rejection
  import RejectionReader
  import RunOrder

  /** A file holds the token exactly when it can be cut around it. */
  lemma {:induction false} ReadyIsPart(data: bytes)
    ensures Batches.ContainsReady(data) <==> exists a: bytes, b: bytes :: data == a + [82, 69, 65, 68, 89] + b
  {
    if Batches.ContainsReady(data) {
      var i :| 0 <= i <= |data| - 5 && Batches.TokenAt(data, i);
      assert data == data[..i] + data[i..i + 5] + data[i + 5..];
    }
    if a: bytes, b: bytes :| data == a + [82, 69, 65, 68, 89] + b {
      assert Batches.TokenAt(data, |a|);
    }
  }

  lemma {:induction false} TokenIsPart(s: string)
    ensures R.TokenIn(s) <==> exists a: string, b: string :: s == a + "READY" + b
  {
    if R.TokenIn(s) {
      var i :| 0 <= i <= |s| - 5 && R.SpelledAt(s, i);
      assert s[i..i + 5] == "READY";
      assert s == s[..i] + s[i..i + 5] + s[i + 5..];
    }
    if a: string, b: string :| s == a + "READY" + b {
      assert R.SpelledAt(s, |a|);
    }
  }

  const CAPITALS := "ABCDEFGHIJKLMNOPQRSTUVWXYZ"
  const CODE_CHARS := CAPITALS + "0123456789_"

  lemma {:induction false} Capital(c: char)
    ensures 'A' <= c <= 'Z' <==> c in CAPITALS
  {
    assert forall i :: 0 <= i < 26 ==> CAPITALS[i] == (65 + i) as char;
    if 'A' <= c <= 'Z' {
      assert CAPITALS[c as int - 65] == c;
    }
  }

  lemma {:induction false} CodeChars(c: char)
    ensures R.CodeChar(c) <==> c in CODE_CHARS
  {
    Capital(c);
    assert forall i :: 0 <= i < 10 ==> "0123456789_"[i] == (48 + i) as char;
    if '0' <= c <= '9' {
      assert "0123456789_"[c as int - 48] == c;
    }
    assert "0123456789_"[10] == '_';
    assert c in CODE_CHARS <==> c in CAPITALS || c in "0123456789_";
  }

  /** What the pattern of reason codes and the search for the token let through. */
  ghost predicate MayShow(s: string) {
    && 3 <= |s| <= 96 && s[0] in CAPITALS && (forall c :: c in s ==> c in CODE_CHARS)
    && !exists a: string, b: string :: s == a + "READY" + b
  }

  lemma {:induction false} ReportableMeans(s: string)
    ensures R.Reportable(s) <==> MayShow(s)
  {
    TokenIsPart(s);
    if 3 <= |s| {
      Capital(s[0]);
      forall c ensures R.CodeChar(c) <==> c in CODE_CHARS {
        CodeChars(c);
      }
    }
  }

  /** From the error of a run to what a reader of its rejection finds: the error's own code exactly where
      it may be shown, and otherwise the fallback. */
  lemma {:induction false} ReportedReads(fixed: R.Fixed, config: string, failure: RunOrder.Failure)
    ensures var files := RunOrder.RejectionFor(fixed, config, failure).files;
      var shown := if failure.code.Some? && MayShow(failure.code.value) then failure.code.value else "PRIMARY_STACK_PREPARATION_RED";
      && RejectionReader.Rejects(files["acceptance.json"], fixed.evidence, [shown])
      && RejectionReader.ReadPage(files["status.html"]) == Some([shown])
  {
    var code := R.FailureBlocker(failure.code, R.FALLBACK);
    RejectionReader.FailClosedReads(fixed, config, code);
    R.FailureBlockerReportable(failure.code);
    if failure.code.Some? {
      ReportableMeans(failure.code.value);
    }
  }

  /** The serial number of a bill of materials spells the first half of the inventory's digest as a UUID:
      groups of eight, four, four, four and twelve digits. */
  lemma {:induction false} SerialIsUuid(inventory: string)
    requires IsHex64(inventory)
    ensures var s := R.SerialText(inventory);
      && |s| == 45 && s[..9] == "urn:uuid:" && s[17] == '-' && s[22] == '-' && s[27] == '-' && s[32] == '-'
      && s[9..17] + s[18..22] + s[23..27] + s[28..32] + s[33..] == inventory[..32]
  {
    var s := R.SerialText(inventory);
    assert s[9..17] == inventory[..8] && s[18..22] == inventory[8..12] && s[23..27] == inventory[12..16];
    assert s[28..32] == inventory[16..20] && s[33..] == inventory[20..32];
  }
}
