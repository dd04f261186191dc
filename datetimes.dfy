/**
 * Naive `datetime.datetime` values (what `datetime.utcnow()` returns) and their
 * `isoformat()` text, which the timer store keeps as the start time.
 */
module DateTimes {
  import opened Wrappers
  import opened Text

  datatype DateTime = DateTime(year: nat, month: nat, day: nat,
                               hour: nat, minute: nat, second: nat, microsecond: nat)
  {
    /** The ranges `datetime` enforces on construction. */
    predicate Valid() {
      && 1 <= year <= 9999 && 1 <= month <= 12 && 1 <= day <= DaysInMonth(year, month)
      && hour < 24 && minute < 60 && second < 60 && microsecond < 1000000
    }
  }

  predicate IsLeapYear(y: nat) {
    y % 4 == 0 && (y % 100 != 0 || y % 400 == 0)
  }

  function DaysInMonth(y: nat, m: nat): nat {
    if m == 2 then (if IsLeapYear(y) then 29 else 28)
    else if m == 4 || m == 6 || m == 9 || m == 11 then 30
    else 31
  }

  /** Three zero-padded numbers joined by `sep`, as in `2024-05-06` or `09:30:00`. */
  function Triple(a: nat, b: nat, c: nat, wa: nat, sep: char): string {
    ZeroPad(Dec(a), wa) + [sep] + ZeroPad(Dec(b), 2) + [sep] + ZeroPad(Dec(c), 2)
  }

  /** `t.isoformat()`: `YYYY-MM-DDTHH:MM:SS`, followed by `.ffffff` only when there are microseconds. */
  function IsoFormat(t: DateTime): (r: string)
    ensures t.Valid() ==> |r| == (if t.microsecond == 0 then 19 else 26) && r[10] == 'T'
  {
    IsoFieldWidths(t);
    Triple(t.year, t.month, t.day, 4, '-') + "T" + Triple(t.hour, t.minute, t.second, 2, ':')
    + (if t.microsecond == 0 then "" else "." + ZeroPad(Dec(t.microsecond), 6))
  }

  /** In a valid datetime the date is 10 characters, the time 8 and the fraction 6. */
  lemma IsoFieldWidths(t: DateTime)
    ensures t.Valid() ==> |Triple(t.year, t.month, t.day, 4, '-')| == 10 && |Triple(t.hour, t.minute, t.second, 2, ':')| == 8
                          && |ZeroPad(Dec(t.microsecond), 6)| == 6
  {
    if t.Valid() {
      DecLength(t.year);
      DecLength(t.month);
      DecLength(t.day);
      DecLength(t.hour);
      DecLength(t.minute);
      DecLength(t.second);
      DecLength(t.microsecond);
    }
  }

  /** A field of `width` digits: its text and the number it denotes. */
  lemma PaddedField(n: nat, width: nat)
    requires |Dec(n)| <= width
    ensures |ZeroPad(Dec(n), width)| == width
    ensures AllDigits(ZeroPad(Dec(n), width)) && Value(ZeroPad(Dec(n), width)) == n
  {
    ValueOfZeroPad(n, width);
  }

  /** Reads back a `Triple` whose first field is `wa` wide. */
  function ParseTriple(s: string, wa: nat, sep: char): Option<(nat, nat, nat)> {
    if |s| == wa + 6 && s[wa] == sep && s[wa + 3] == sep
       && AllDigits(s[..wa]) && AllDigits(s[wa + 1..wa + 3]) && AllDigits(s[wa + 4..])
    then Some((Value(s[..wa]), Value(s[wa + 1..wa + 3]), Value(s[wa + 4..])))
    else None
  }

  /** Where the three fields and the two separators sit in `x + [sep] + y + [sep] + z`. */
  lemma TripleLayout(x: string, y: string, z: string, sep: char)
    requires |y| == 2 && |z| == 2
    ensures var s := x + [sep] + y + [sep] + z;
            && |s| == |x| + 6 && s[|x|] == sep && s[|x| + 3] == sep
            && s[..|x|] == x && s[|x| + 1..|x| + 3] == y && s[|x| + 4..] == z
  {
    var s := x + [sep] + y + [sep] + z;
    assert s[..|x|] == x;
    assert s[|x| + 1..|x| + 3] == y;
    assert s[|x| + 4..] == z;
  }

  /** Three digit fields of the right widths joined by `sep` parse back as their values. */
  lemma ParseTripleOfFields(x: string, y: string, z: string, sep: char)
    requires |y| == 2 && |z| == 2 && AllDigits(x) && AllDigits(y) && AllDigits(z)
    ensures ParseTriple(x + [sep] + y + [sep] + z, |x|, sep) == Some((Value(x), Value(y), Value(z)))
  {
    TripleLayout(x, y, z, sep);
  }

  lemma TripleRoundTrip(a: nat, b: nat, c: nat, wa: nat, sep: char)
    requires |Dec(a)| <= wa && b < 100 && c < 100
    ensures |Triple(a, b, c, wa, sep)| == wa + 6
    ensures ParseTriple(Triple(a, b, c, wa, sep), wa, sep) == Some((a, b, c))
  {
    DecLength(b);
    DecLength(c);
    PaddedField(a, wa);
    PaddedField(b, 2);
    PaddedField(c, 2);
    var x, y, z := ZeroPad(Dec(a), wa), ZeroPad(Dec(b), 2), ZeroPad(Dec(c), 2);
    assert Triple(a, b, c, wa, sep) == x + [sep] + y + [sep] + z;
    ParseTripleOfFields(x, y, z, sep);
  }

  /** Reads the fields back out of an isoformat text; None when the text has the wrong shape. */
  function ParseIso(s: string): Option<DateTime> {
    if |s| < 19 || s[10] != 'T' then None
    else
      match (ParseTriple(s[..10], 4, '-'), ParseTriple(s[11..19], 2, ':'))
      case (Some((y, mo, d)), Some((h, mi, sec))) =>
        if |s| == 19 then Some(DateTime(y, mo, d, h, mi, sec, 0))
        else if |s| == 26 && s[19] == '.' && AllDigits(s[20..])
        then Some(DateTime(y, mo, d, h, mi, sec, Value(s[20..])))
        else None
      case _ => None
  }

  /** Where the date, the time and the fraction sit in an isoformat text. */
  lemma IsoLayout(date: string, time: string, frac: string)
    requires |date| == 10 && |time| == 8
    ensures var s := date + "T" + time + frac;
            && |s| == 19 + |frac| && s[10] == 'T'
            && s[..10] == date && s[11..19] == time && s[19..] == frac
  {
    var s := date + "T" + time + frac;
    assert s[..10] == date;
    assert s[11..19] == time;
    assert s[19..] == frac;
  }

  /** A date, a time and a fraction laid out as isoformat text read back as the datetime they spell. */
  lemma ParseIsoOfParts(date: string, time: string, frac: string, t: DateTime)
    requires |date| == 10 && |time| == 8
    requires ParseTriple(date, 4, '-') == Some((t.year, t.month, t.day))
    requires ParseTriple(time, 2, ':') == Some((t.hour, t.minute, t.second))
    requires if t.microsecond == 0 then frac == ""
             else |frac| == 7 && frac[0] == '.' && AllDigits(frac[1..]) && Value(frac[1..]) == t.microsecond
    ensures ParseIso(date + "T" + time + frac) == Some(t)
  {
    IsoLayout(date, time, frac);
  }

  /** The isoformat text of a valid datetime reads back as the same datetime. */
  lemma IsoFormatRoundTrip(t: DateTime)
    requires t.Valid()
    ensures ParseIso(IsoFormat(t)) == Some(t)
  {
    DecLength(t.year);
    TripleRoundTrip(t.year, t.month, t.day, 4, '-');
    TripleRoundTrip(t.hour, t.minute, t.second, 2, ':');
    var date, time := Triple(t.year, t.month, t.day, 4, '-'), Triple(t.hour, t.minute, t.second, 2, ':');
    var frac := if t.microsecond == 0 then "" else "." + ZeroPad(Dec(t.microsecond), 6);
    if t.microsecond != 0 {
      DecLength(t.microsecond);
      PaddedField(t.microsecond, 6);
      assert frac[1..] == ZeroPad(Dec(t.microsecond), 6);
    }
    ParseIsoOfParts(date, time, frac, t);
  }

  /** Hence two valid datetimes with the same isoformat text are the same datetime. */
  lemma IsoFormatInjective(t: DateTime, u: DateTime)
    requires t.Valid() && u.Valid() && IsoFormat(t) == IsoFormat(u)
    ensures t == u
  {
    IsoFormatRoundTrip(t);
    IsoFormatRoundTrip(u);
  }
}
