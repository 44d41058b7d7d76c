/** The time layout "20060102-150405" that names backups: a calendar
    reading printed as zero-padded decimal fields, the date, one dash, and
    the time of day. */
module TimeLayout {
  import opened Text

  /** A calendar reading of an instant in the local time zone. */
  datatype DateTime = DateTime(year: nat, month: nat, day: nat, hour: nat, minute: nat, second: nat)

  predicate ValidDateTime(t: DateTime)
  {
    t.year <= 9999 && 1 <= t.month <= 12 && 1 <= t.day <= 31
    && t.hour < 24 && t.minute < 60 && t.second < 60
  }

  // ---------------------------------------------------------------------
  // The timestamp layout "20060102-150405"

  predicate AllDigits(s: string)
  {
    forall i :: 0 <= i < |s| ==> IsDigit(s[i])
  }

  /** `c` does not occur in `s`. */
  predicate Free(s: string, c: char)
  {
    forall i :: 0 <= i < |s| ==> s[i] != c
  }

  lemma DigitsConcat(a: string, b: string)
    requires AllDigits(a) && AllDigits(b)
    ensures AllDigits(a + b)
  {
    assert forall i :: |a| <= i < |a + b| ==> (a + b)[i] == b[i - |a|];
  }

  lemma FreeConcat(a: string, b: string, c: char)
    requires Free(a, c) && Free(b, c)
    ensures Free(a + b, c)
  {
    assert forall i :: |a| <= i < |a + b| ==> (a + b)[i] == b[i - |a|];
  }

  /** Digits are neither dashes, dots nor slashes. */
  lemma DigitsFree(s: string)
    requires AllDigits(s)
    ensures Free(s, '-') && Free(s, '.') && Free(s, '/')
  {
  }

  /** Equal concatenations with equally long heads have equal parts. */
  lemma ConcatInjective(a1: string, b1: string, a2: string, b2: string)
    requires |a1| == |a2| && a1 + b1 == a2 + b2
    ensures a1 == a2 && b1 == b2
  {
    assert a1 == (a1 + b1)[..|a1|];
    assert a2 == (a2 + b2)[..|a2|];
    assert b1 == (a1 + b1)[|a1|..];
    assert b2 == (a2 + b2)[|a2|..];
  }

  function Pow10(w: nat): (r: nat)
    ensures r >= 1
  {
    if w == 0 then 1 else 10 * Pow10(w - 1)
  }

  function Zeros(n: nat): (r: string)
    ensures |r| == n && forall i :: 0 <= i < n ==> r[i] == '0'
  {
    if n == 0 then "" else Zeros(n - 1) + "0"
  }

  /** A number in decimal, zero-padded on the left to at least `width`
      digits, as the time layout's numeric fields are printed. */
  function Pad(n: nat, width: nat): (r: string)
    ensures AllDigits(r) && |r| >= width
    ensures |NatToDecimal(n)| <= width ==> |r| == width
  {
    var d := NatToDecimal(n);
    if |d| >= width then d else Zeros(width - |d|) + d
  }

  /** Leading zeros do not change the value of a digit string. */
  lemma {:induction false} LeadingZeros(k: nat, s: string)
    requires AllDigits(s)
    ensures AllDigits(Zeros(k) + s)
    ensures DecimalValue(Zeros(k) + s) == DecimalValue(s)
  {
    var z := Zeros(k) + s;
    if |s| == 0 {
      assert z == Zeros(k);
      if k > 0 {
        assert z[..|z| - 1] == Zeros(k - 1);
        LeadingZeros(k - 1, "");
        assert Zeros(k - 1) + "" == Zeros(k - 1);
      }
    } else {
      assert z[..|z| - 1] == Zeros(k) + s[..|s| - 1];
      LeadingZeros(k, s[..|s| - 1]);
    }
  }

  /** A padded field reads back as its number. */
  lemma PadValue(n: nat, width: nat)
    ensures DecimalValue(Pad(n, width)) == n
  {
    var d := NatToDecimal(n);
    var k: nat := if |d| < width then width - |d| else 0;
    assert Pad(n, width) == Zeros(k) + d;
    LeadingZeros(k, d);
    DecimalRoundTrip(n);
  }

  /** A number below `10^w` has at most `w` digits. */
  lemma {:induction false} DecimalLength(n: nat, w: nat)
    requires 1 <= w && n < Pow10(w)
    ensures |NatToDecimal(n)| <= w
  {
    if n >= 10 {
      assert w >= 2;
      assert n / 10 < Pow10(w - 1);
      DecimalLength(n / 10, w - 1);
    }
  }

  function DatePart(t: DateTime): (r: string)
    ensures AllDigits(r) && |r| >= 8
  {
    DigitsConcat(Pad(t.year, 4), Pad(t.month, 2));
    DigitsConcat(Pad(t.year, 4) + Pad(t.month, 2), Pad(t.day, 2));
    Pad(t.year, 4) + Pad(t.month, 2) + Pad(t.day, 2)
  }

  function ClockPart(t: DateTime): (r: string)
    ensures AllDigits(r) && |r| >= 6
  {
    DigitsConcat(Pad(t.hour, 2), Pad(t.minute, 2));
    DigitsConcat(Pad(t.hour, 2) + Pad(t.minute, 2), Pad(t.second, 2));
    Pad(t.hour, 2) + Pad(t.minute, 2) + Pad(t.second, 2)
  }

  /** `Format("20060102-150405")`: the date digits, one dash, the time of
      day digits. */
  function Stamp(t: DateTime): (r: string)
    ensures ValidDateTime(t) ==> |r| == 15
  {
    var stamp := DatePart(t) + "-" + ClockPart(t);
    assert ValidDateTime(t) ==> |stamp| == 15 by {
      if ValidDateTime(t) { PartLengths(t); }
    }
    stamp
  }

  /** The stamp is the date, a dash and the time of day. */
  lemma StampParts(t: DateTime)
    ensures Stamp(t) == DatePart(t) + "-" + ClockPart(t)
  {
  }

  /** A stamp holds no dot and no slash, so it never changes a file
      name's extension or directory. */
  lemma StampLayout(t: DateTime)
    ensures Free(Stamp(t), '.') && Free(Stamp(t), '/')
  {
    StampParts(t);
    DigitsLayout(DatePart(t), ClockPart(t));
  }

  lemma DigitsLayout(date: string, clock: string)
    requires AllDigits(date) && AllDigits(clock)
    ensures Free(date + "-" + clock, '.') && Free(date + "-" + clock, '/')
  {
    DigitsFree(date);
    DigitsFree(clock);
    FreeConcat(date, "-", '.');
    FreeConcat(date + "-", clock, '.');
    FreeConcat(date, "-", '/');
    FreeConcat(date + "-", clock, '/');
  }

  /** Two strings split at a dash after equally long heads have equal
      parts. */
  lemma SplitAtDash(d1: string, c1: string, d2: string, c2: string)
    requires |d1| == |d2| && d1 + "-" + c1 == d2 + "-" + c2
    ensures d1 == d2 && c1 == c2
  {
    assert d1 + ("-" + c1) == d1 + "-" + c1;
    assert d2 + ("-" + c2) == d2 + "-" + c2;
    ConcatInjective(d1, "-" + c1, d2, "-" + c2);
    assert c1 == ("-" + c1)[1..];
    assert c2 == ("-" + c2)[1..];
  }

  /** In a valid reading every field fills exactly its width. */
  lemma PartLengths(t: DateTime)
    requires ValidDateTime(t)
    ensures |Pad(t.year, 4)| == 4 && |Pad(t.month, 2)| == 2 && |Pad(t.day, 2)| == 2
    ensures |Pad(t.hour, 2)| == 2 && |Pad(t.minute, 2)| == 2 && |Pad(t.second, 2)| == 2
    ensures |DatePart(t)| == 8 && |ClockPart(t)| == 6
  {
    DecimalLength(t.year, 4);
    DecimalLength(t.month, 2);
    DecimalLength(t.day, 2);
    DecimalLength(t.hour, 2);
    DecimalLength(t.minute, 2);
    DecimalLength(t.second, 2);
  }

  lemma DatePartInjective(a: DateTime, b: DateTime)
    requires ValidDateTime(a) && ValidDateTime(b) && DatePart(a) == DatePart(b)
    ensures a.year == b.year && a.month == b.month && a.day == b.day
  {
    PartLengths(a);
    PartLengths(b);
    ConcatInjective(Pad(a.year, 4) + Pad(a.month, 2), Pad(a.day, 2), Pad(b.year, 4) + Pad(b.month, 2), Pad(b.day, 2));
    ConcatInjective(Pad(a.year, 4), Pad(a.month, 2), Pad(b.year, 4), Pad(b.month, 2));
    PadValue(a.year, 4); PadValue(b.year, 4);
    PadValue(a.month, 2); PadValue(b.month, 2);
    PadValue(a.day, 2); PadValue(b.day, 2);
  }

  lemma ClockPartInjective(a: DateTime, b: DateTime)
    requires ValidDateTime(a) && ValidDateTime(b) && ClockPart(a) == ClockPart(b)
    ensures a.hour == b.hour && a.minute == b.minute && a.second == b.second
  {
    PartLengths(a);
    PartLengths(b);
    ConcatInjective(Pad(a.hour, 2) + Pad(a.minute, 2), Pad(a.second, 2), Pad(b.hour, 2) + Pad(b.minute, 2), Pad(b.second, 2));
    ConcatInjective(Pad(a.hour, 2), Pad(a.minute, 2), Pad(b.hour, 2), Pad(b.minute, 2));
    PadValue(a.hour, 2); PadValue(b.hour, 2);
    PadValue(a.minute, 2); PadValue(b.minute, 2);
    PadValue(a.second, 2); PadValue(b.second, 2);
  }

  /** Two valid readings give the same stamp exactly when they are the same
      second: backups of one type made within the same second share a name. */
  lemma StampInjective(a: DateTime, b: DateTime)
    requires ValidDateTime(a) && ValidDateTime(b)
    ensures Stamp(a) == Stamp(b) <==> a == b
  {
    if Stamp(a) == Stamp(b) {
      StampParts(a);
      StampParts(b);
      PartLengths(a);
      PartLengths(b);
      SplitAtDash(DatePart(a), ClockPart(a), DatePart(b), ClockPart(b));
      DatePartInjective(a, b);
      ClockPartInjective(a, b);
    }
  }
}
