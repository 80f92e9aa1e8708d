/** What a backup manifest's fields may say, in numbers and characters: which names, which counts and
    which moments. */
module ManifestMeaning {
  import opened Bytes
  import opened Json
  import opened Backup
  import Coordinates
  import Tokens

  // ---------- moments ----------

  datatype Moment = Moment(year: nat, month: nat, day: nat, hour: nat, minute: nat, second: nat)

  predicate Leap(year: nat) {
    year % 400 == 0 || (year % 4 == 0 && year % 100 != 0)
  }

  /** The lengths of the months, from January. */
  function Months(year: nat): seq<nat> {
    [31, if Leap(year) then 29 else 28, 31, 30, 31, 30, 31, 31, 30, 31, 30, 31]
  }

  /** A date and time of the calendar. */
  predicate OnCalendar(m: Moment) {
    && 1 <= m.year <= 9999 && 1 <= m.month <= 12 && 1 <= m.day <= Months(m.year)[m.month - 1]
    && m.hour <= 23 && m.minute <= 59 && m.second <= 59
  }

  function Two(n: nat): (s: string)
    requires n < 100
    ensures |s| == 2
  {
    [DigitChar(n / 10), DigitChar(n % 10)]
  }

  /** 2026-07-04T08:15:00Z. */
  function Stamp(m: Moment): string
    requires OnCalendar(m)
  {
    Two(m.year / 100) + Two(m.year % 100) + "-" + Two(m.month) + "-" + Two(m.day) + "T"
    + Two(m.hour) + ":" + Two(m.minute) + ":" + Two(m.second) + "Z"
  }

  lemma {:induction false} MonthLength(year: nat, month: nat)
    requires 1 <= month <= 12
    ensures DaysInMonth(year, month) == Months(year)[month - 1]
  {
    var m := Months(year);
    if month <= 6 {
      assert m[0] == 31 && m[2] == 31 && m[3] == 30 && m[4] == 31 && m[5] == 30;
      assert m[1] == if Leap(year) then 29 else 28;
      if month == 2 {
        LeapYear(year);
      }
    } else {
      assert m[6] == 31 && m[7] == 31 && m[8] == 30 && m[9] == 31 && m[10] == 30 && m[11] == 31;
    }
  }

  lemma {:induction false} LeapYear(year: nat)
    ensures DaysInMonth(year, 2) == if Leap(year) then 29 else 28
  {
    if year % 400 == 0 {
      var k := year / 400;
      assert year == 400 * k && year == 4 * (100 * k);
      assert year % 4 == 0;
    }
  }

  lemma {:induction false} TwoReads(n: nat)
    requires n < 100
    ensures IsDigit(Two(n)[0]) && IsDigit(Two(n)[1]) && TwoDigits(Two(n), 0) == n
  {
    Coordinates.DigitCharIs(n / 10);
    Coordinates.DigitCharIs(n % 10);
  }

  lemma {:induction false} TwoOf(s: string, i: nat)
    requires i + 2 <= |s| && IsDigit(s[i]) && IsDigit(s[i + 1])
    ensures 0 <= TwoDigits(s, i) < 100 && Two(TwoDigits(s, i)) == s[i..i + 2]
  {
    var a, b := s[i] as int - 48, s[i + 1] as int - 48;
    assert (10 * a + b) / 10 == a && (10 * a + b) % 10 == b;
  }

  lemma {:induction false} DateParts(a: string, b: string, c: string)
    requires |a| == 2 && |b| == 2 && |c| == 2
    ensures var p := a + b + "-" + c + "-";
      |p| == 8 && p[0..2] == a && p[2..4] == b && p[4] == '-' && p[5..7] == c && p[7] == '-'
  {
  }

  lemma {:induction false} TimeParts(d: string, e: string, f: string, g: string)
    requires |d| == 2 && |e| == 2 && |f| == 2 && |g| == 2
    ensures var q := d + "T" + e + ":" + f + ":" + g + "Z";
      && |q| == 12 && q[0..2] == d && q[2] == 'T' && q[3..5] == e && q[5] == ':' && q[6..8] == f && q[8] == ':'
      && q[9..11] == g && q[11] == 'Z'
  {
    var q := d + "T" + e + ":" + f + ":" + g + "Z";
    assert q[0..2] == d && q[3..5] == e;
    assert q[6..8] == f && q[9..11] == g;
  }

  lemma {:induction false} Behind(p: string, q: string, i: nat, j: nat)
    requires i <= j <= |q|
    ensures (p + q)[|p| + i..|p| + j] == q[i..j] && forall k :: 0 <= k < |q| ==> (p + q)[|p| + k] == q[k]
  {
  }

  lemma {:induction false} Before(p: string, q: string, i: nat, j: nat)
    requires i <= j <= |p|
    ensures (p + q)[i..j] == p[i..j] && forall k :: 0 <= k < |p| ==> (p + q)[k] == p[k]
  {
  }

  function DateText(m: Moment): string
    requires OnCalendar(m)
  {
    Two(m.year / 100) + Two(m.year % 100) + "-" + Two(m.month) + "-"
  }

  function TimeText(m: Moment): string
    requires OnCalendar(m)
  {
    Two(m.day) + "T" + Two(m.hour) + ":" + Two(m.minute) + ":" + Two(m.second) + "Z"
  }

  lemma {:induction false} StampCut(m: Moment)
    requires OnCalendar(m)
    ensures Stamp(m) == DateText(m) + TimeText(m)
  {
    Apart(DateText(m), Two(m.day), "T", Two(m.hour), ":", Two(m.minute), Two(m.second));
  }

  lemma {:induction false} Apart(p: string, d: string, t: string, e: string, c: string, f: string, g: string)
    ensures p + d + t + e + c + f + c + g + "Z" == p + (d + t + e + c + f + c + g + "Z")
  {
  }

  /** Where the parts of a stamp stand. */
  lemma {:induction false} StampParts(m: Moment)
    requires OnCalendar(m)
    ensures var s := Stamp(m);
      && |s| == 20 && s[0..2] == Two(m.year / 100) && s[2..4] == Two(m.year % 100) && s[4] == '-' && s[5..7] == Two(m.month)
      && s[7] == '-' && s[8..10] == Two(m.day) && s[10] == 'T' && s[11..13] == Two(m.hour) && s[13] == ':'
      && s[14..16] == Two(m.minute) && s[16] == ':' && s[17..19] == Two(m.second) && s[19] == 'Z'
  {
    var p, q := DateText(m), TimeText(m);
    StampCut(m);
    DateParts(Two(m.year / 100), Two(m.year % 100), Two(m.month));
    TimeParts(Two(m.day), Two(m.hour), Two(m.minute), Two(m.second));
    Before(p, q, 0, 2);
    Before(p, q, 2, 4);
    Before(p, q, 5, 7);
    Behind(p, q, 0, 2);
    Behind(p, q, 3, 5);
    Behind(p, q, 6, 8);
    Behind(p, q, 9, 11);
    assert (p + q)[|p| + 2] == q[2] && (p + q)[|p| + 5] == q[5] && (p + q)[|p| + 8] == q[8] && (p + q)[|p| + 11] == q[11];
  }

  lemma {:induction false} PartReads(s: string, i: nat, n: nat)
    requires i + 2 <= |s| && n < 100 && s[i..i + 2] == Two(n)
    ensures TwoDigits(s, i) == n && IsDigit(s[i]) && IsDigit(s[i + 1])
  {
    TwoReads(n);
    assert s[i] == s[i..i + 2][0] && s[i + 1] == s[i..i + 2][1];
  }

  lemma {:induction false} StampDigits(m: Moment)
    requires OnCalendar(m)
    ensures var s := Stamp(m);
      && |s| == 20 && TwoDigits(s, 0) == m.year / 100 && TwoDigits(s, 2) == m.year % 100 && TwoDigits(s, 5) == m.month
      && TwoDigits(s, 8) == m.day && TwoDigits(s, 11) == m.hour && TwoDigits(s, 14) == m.minute && TwoDigits(s, 17) == m.second
    ensures var s := Stamp(m);
      && IsDigit(s[0]) && IsDigit(s[1]) && IsDigit(s[2]) && IsDigit(s[3]) && IsDigit(s[5]) && IsDigit(s[6])
      && IsDigit(s[8]) && IsDigit(s[9]) && IsDigit(s[11]) && IsDigit(s[12]) && IsDigit(s[14]) && IsDigit(s[15])
      && IsDigit(s[17]) && IsDigit(s[18])
  {
    var s := Stamp(m);
    StampParts(m);
    PartReads(s, 0, m.year / 100);
    PartReads(s, 2, m.year % 100);
    PartReads(s, 5, m.month);
    PartReads(s, 8, m.day);
    PartReads(s, 11, m.hour);
    PartReads(s, 14, m.minute);
    PartReads(s, 17, m.second);
  }

  lemma {:induction false} StampIsTimestamp(m: Moment)
    requires OnCalendar(m)
    ensures IsTimestamp(Stamp(m))
  {
    StampParts(m);
    StampDigits(m);
    MonthLength(m.year, m.month);
  }

  function MomentOf(s: string): Moment
    requires IsTimestamp(s)
  {
    Digits14(s);
    Moment(100 * TwoDigits(s, 0) + TwoDigits(s, 2), TwoDigits(s, 5), TwoDigits(s, 8),
           TwoDigits(s, 11), TwoDigits(s, 14), TwoDigits(s, 17))
  }

  lemma {:induction false} Digits14(s: string)
    requires IsTimestamp(s)
    ensures 0 <= TwoDigits(s, 0) < 100 && 0 <= TwoDigits(s, 2) < 100 && 0 <= TwoDigits(s, 5) < 100 && 0 <= TwoDigits(s, 8) < 100
    ensures 0 <= TwoDigits(s, 11) < 100 && 0 <= TwoDigits(s, 14) < 100 && 0 <= TwoDigits(s, 17) < 100
    ensures Two(TwoDigits(s, 0)) == s[0..2] && Two(TwoDigits(s, 2)) == s[2..4] && Two(TwoDigits(s, 5)) == s[5..7]
    ensures Two(TwoDigits(s, 8)) == s[8..10] && Two(TwoDigits(s, 11)) == s[11..13] && Two(TwoDigits(s, 14)) == s[14..16]
    ensures Two(TwoDigits(s, 17)) == s[17..19]
  {
    TwoOf(s, 0);
    TwoOf(s, 2);
    TwoOf(s, 5);
    TwoOf(s, 8);
    TwoOf(s, 11);
    TwoOf(s, 14);
    TwoOf(s, 17);
  }

  lemma {:induction false} TimestampIsStamp(s: string)
    requires IsTimestamp(s)
    ensures OnCalendar(MomentOf(s)) && s == Stamp(MomentOf(s))
  {
    Digits14(s);
    var m := MomentOf(s);
    MonthLength(m.year, m.month);
    assert m.year / 100 == TwoDigits(s, 0) && m.year % 100 == TwoDigits(s, 2);
    assert s == s[0..2] + s[2..4] + "-" + s[5..7] + "-" + s[8..10] + "T" + s[11..13] + ":" + s[14..16] + ":" + s[17..19] + "Z";
  }

  /** A text is a timestamp exactly when it spells a moment of the calendar. */
  lemma {:induction false} TimestampMeans(s: string)
    ensures IsTimestamp(s) <==> exists m :: OnCalendar(m) && s == Stamp(m)
  {
    if IsTimestamp(s) {
      TimestampIsStamp(s);
    }
    if m :| OnCalendar(m) && s == Stamp(m) {
      StampIsTimestamp(m);
    }
  }

  // ---------- names ----------

  const SMALLS := "abcdefghijklmnopqrstuvwxyz"

  lemma {:induction false} Small(c: char)
    ensures 'a' <= c <= 'z' <==> c in SMALLS
  {
    assert forall i :: 0 <= i < 26 ==> SMALLS[i] == (97 + i) as char;
    if 'a' <= c <= 'z' {
      assert SMALLS[c as int - 97] == c;
    }
  }

  lemma {:induction false} Figure(c: char)
    ensures '0' <= c <= '9' <==> c in "0123456789"
  {
    assert forall i :: 0 <= i < 10 ==> "0123456789"[i] == (48 + i) as char;
    if '0' <= c <= '9' {
      assert "0123456789"[c as int - 48] == c;
    }
  }

  predicate LetterOrFigure(c: char) {
    c in Tokens.CAPITALS || c in SMALLS || c in "0123456789"
  }

  lemma {:induction false} AlphanumericMeans(c: char)
    ensures IsAlphanumeric(c) <==> LetterOrFigure(c)
  {
    Tokens.Capital(c);
    Small(c);
    Figure(c);
  }

  /** Letters, figures, underscores and hyphens, at most 128, the first a letter or figure. */
  predicate IsName(s: string) {
    s != "" && |s| <= 128 && LetterOrFigure(s[0]) && forall c :: c in s ==> LetterOrFigure(c) || c in "_-"
  }

  lemma {:induction false} IdentifierMeans(s: string)
    ensures IsIdentifier(s) <==> IsName(s)
  {
    forall c ensures IsAlphanumeric(c) <==> LetterOrFigure(c) {
      AlphanumericMeans(c);
    }
  }

  // ---------- the manifest ----------

  ghost predicate IsDigestText(s: string) {
    exists d: Digest :: Hex(d) == s
  }

  /** What a manifest may say. */
  ghost predicate Sensible(m: Manifest) {
    && IsName(m.projectId) && IsName(m.database)
    && IsDigestText(m.dumpSha256) && IsDigestText(m.treeSha256) && IsDigestText(m.business.countSha256)
    && m.dumpSize >= 0 && m.fileCount >= 0 && m.totalSize >= 0
    && m.business.tableCount in {31, 34, 35}
    && 0 <= m.business.nonemptyTables && m.business.nonemptyTables <= m.business.tableCount
    && m.business.totalRows >= m.business.nonemptyTables
    && exists t :: OnCalendar(t) && m.createdAt == Stamp(t)
  }

  /** Which manifests are valid. */
  lemma {:induction false} ManifestMeans(m: Manifest)
    ensures ValidManifest(m) <==> Sensible(m)
  {
    IdentifierMeans(m.projectId);
    IdentifierMeans(m.database);
    Coordinates.HexIsDigest(m.dumpSha256);
    Coordinates.HexIsDigest(m.treeSha256);
    Coordinates.HexIsDigest(m.business.countSha256);
    TimestampMeans(m.createdAt);
  }
}
