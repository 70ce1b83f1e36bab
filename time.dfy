/** Timestamps. The source works with naive local `datetime` values; here a
    timestamp is a whole number of seconds counted from 1970-01-01T00:00:00 of
    that same local clock, and a duration is a number of seconds. */
module Time {
  import opened Text
  import opened Floats

  const SecondsPerHour := 3600
  const SecondsPerDay := 86400

  /** `h` hours as seconds: "more than h hours" is "more than Hours(h) seconds". */
  function Hours(h: int): int
  {
    h * SecondsPerHour
  }

  /** The civil date (year, month, day) of a day count since 1970-01-01, in the
      proleptic Gregorian calendar that Python's `datetime` uses. */
  function CivilFromDays(days: int): (int, int, int)
  {
    var z := days + 719468;
    var era := z / 146097;
    var doe := z - era * 146097;
    var yoe := (doe - doe / 1460 + doe / 36524 - doe / 146096) / 365;
    var doy := doe - (365 * yoe + yoe / 4 - yoe / 100);
    var mp := (5 * doy + 2) / 153;
    var day := doy - (153 * mp + 2) / 5 + 1;
    var month := if mp < 10 then mp + 3 else mp - 9;
    var year := yoe + era * 400 + (if month <= 2 then 1 else 0);
    (year, month, day)
  }

  /** `n` zero-padded to `width` digits, with a leading minus sign when negative. */
  function Pad(n: int, width: nat): (s: string)
    ensures |s| >= width
  {
    if n < 0 then "-" + ZeroPad(-n, width) else ZeroPad(n, width)
  }

  /** `datetime.isoformat()` of a whole-second timestamp: `YYYY-MM-DDTHH:MM:SS`
      (no fractional part, since the microseconds are zero). */
  function IsoFormat(t: int): (s: string)
    ensures |s| >= 19
  {
    var (year, month, day) := CivilFromDays(t / SecondsPerDay);
    var secs := t % SecondsPerDay;
    Pad(year, 4) + "-" + Pad(month, 2) + "-" + Pad(day, 2) + "T"
      + ZeroPad(secs / SecondsPerHour, 2) + ":" + ZeroPad(secs / 60 % 60, 2) + ":" + ZeroPad(secs % 60, 2)
  }

  /** `datetime.strftime('%Y-%m-%d')` of a timestamp. */
  function IsoDate(t: int): (s: string)
    ensures |s| >= 10
  {
    var (year, month, day) := CivilFromDays(t / SecondsPerDay);
    Pad(year, 4) + "-" + Pad(month, 2) + "-" + Pad(day, 2)
  }

  /** `datetime.strftime('%Y%m%d')` of a timestamp. */
  function CompactDate(t: int): (s: string)
    ensures |s| >= 8
  {
    var (year, month, day) := CivilFromDays(t / SecondsPerDay);
    Pad(year, 4) + Pad(month, 2) + Pad(day, 2)
  }

  /** `datetime.strftime('%Y%m%d%H%M%S')` of a timestamp. */
  function CompactDateTime(t: int): (s: string)
    ensures |s| >= 14
  {
    var secs := t % SecondsPerDay;
    CompactDate(t) + ZeroPad(secs / SecondsPerHour, 2) + ZeroPad(secs / 60 % 60, 2) + ZeroPad(secs % 60, 2)
  }

  /** A duration in hours with one decimal, as `f"{seconds / 3600:.1f}"`
      prints it: the quotient is first rounded to the nearest double, and
      that double is then rounded to tenths, a tie to the even digit. So
      87300 seconds (exactly 24.25 hours) prints "24.2", and 540 seconds
      prints "0.1", the double nearest 0.15 lying just below it. */
  function HoursText(seconds: nat): (s: string)
    ensures |s| >= 3
  {
    FixedText(Quotient(seconds, SecondsPerHour), 1)
  }

  lemma QuotientTie()
    ensures Quotient(87300, 3600) == Double(6825768185233408, -48)
  {
    Pow2Values();
    assert Log2Floor(87300, 57600) == 0;
    assert Log2Floor(87300, 3600) == 4;
  }

  lemma QuotientBelowTie()
    ensures Quotient(540, 3600) == Double(5404319552844595, -55)
  {
    Pow2Values();
    assert Log2Floor(4320, 3600) == 0;
    assert Log2Floor(540, 3600) == -3;
  }

  lemma ScaledTie()
    ensures Scaled(Double(6825768185233408, -48), 10) == 242
  {
    Pow2Values();
  }

  lemma ScaledBelowTie()
    ensures Scaled(Double(5404319552844595, -55), 10) == 1
  {
    Pow2Values();
  }

  /** Exactly 24.25 hours is a double tie and prints with the even digit, "24.2". */
  lemma HoursTextTie()
    ensures HoursText(87300) == "24.2"
  {
    QuotientTie();
    ScaledTie();
    assert Pow10(1) == 10;
    assert NatToString(24) == "24";
    assert ZeroPad(2, 1) == "2";
  }

  /** 0.15 hours has no exact double; the nearest one lies below 0.15, so it prints "0.1". */
  lemma HoursTextBelowTie()
    ensures HoursText(540) == "0.1"
  {
    QuotientBelowTie();
    ScaledBelowTie();
    assert Pow10(1) == 10;
    assert NatToString(0) == "0";
    assert ZeroPad(1, 1) == "1";
  }
}
