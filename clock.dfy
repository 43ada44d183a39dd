/** Instants and their text forms, as the program uses Go's time package and
    the Persian-calendar library. */
module Clock {
  import opened Text

  const NanosPerSecond: int := 1_000_000_000
  const SecondsPerDay: int := 86_400

  /** A time.Time: an absolute instant (nanoseconds since the Unix epoch) and
      the offset, in seconds east of UTC, of the zone it is shown in. */
  datatype Instant = Instant(unixNano: int, offset: int)

  /** The zero time.Time{}: 0001-01-01 00:00:00 UTC. */
  const ZeroTime: Instant := Instant(-62_135_596_800 * NanosPerSecond, 0)

  /** time.Time.Equal: the same instant, whatever the zones. */
  predicate Equal(a: Instant, b: Instant)
  {
    a.unixNano == b.unixNano
  }

  /** Persian-calendar wall-clock fields, as passed to ptime.Date (seconds and
      nanoseconds are always 0 in this program). */
  datatype WallClock = WallClock(year: int, month: int, day: int, hour: int, minute: int)

  /** A time zone, seen through the one thing the program asks of it:
      `persianDate(w)` is ptime.Date(w.year, w.month, w.day, w.hour,
      w.minute, 0, 0, loc).Time(). The Persian-calendar conversion belongs to
      a foreign library and stays uninterpreted. */
  datatype Location = Location(persianDate: WallClock -> Instant)

  /** Seconds since the epoch on the instant's own wall clock. */
  function LocalSeconds(t: Instant): int
  {
    t.unixNano / NanosPerSecond + t.offset
  }

  /** The proleptic Gregorian (year, month, day) of a day number counted from
      1970-01-01. */
  function CivilFromDays(days: int): (int, int, int)
  {
    var z := days + 719_468;
    var era := z / 146_097;
    var doe := z % 146_097;
    var yoe := (doe - doe / 1460 + doe / 36_524 - doe / 146_096) / 365;
    var doy := doe - (365 * yoe + yoe / 4 - yoe / 100);
    var mp := (5 * doy + 2) / 153;
    var d := doy - (153 * mp + 2) / 5 + 1;
    var m := if mp < 10 then mp + 3 else mp - 9;
    (yoe + era * 400 + (if m <= 2 then 1 else 0), m, d)
  }

  /** The month and day CivilFromDays gives are a real month (1 to 12) and
      a day of at most 31. */
  lemma CivilFromDaysBounds(days: int)
    ensures var (_, m, d) := CivilFromDays(days);
            1 <= m <= 12 && 1 <= d <= 31
  {
    var z := days + 719_468;
    var doe := z % 146_097;
    DayOfYearBounds(doe);
  }

  /** The day of the March-based year computed inside CivilFromDays lies
      between 0 and 365. */
  lemma DayOfYearBounds(doe: int)
    requires 0 <= doe < 146_097
    ensures var yoe := (doe - doe / 1460 + doe / 36_524 - doe / 146_096) / 365;
            0 <= doe - (365 * yoe + yoe / 4 - yoe / 100) <= 365
  {
    if doe < 146_096 {
      var c := doe / 36_524;
      var q := (doe - 36_524 * c) / 1461;
      var r := doe - 36_524 * c - 1461 * q;
      var k := if r == 1460 then 3 else r / 365;
      YearOfEraParts(doe, c, q, r, k);
      DayOfYearParts(doe, c, q, r, k);
    }
  }

  /** The year of the 400-year era, from the day of the era written as
      centuries `c`, four-year cycles `q` and years `k`. */
  lemma YearOfEraParts(doe: int, c: int, q: int, r: int, k: int)
    requires 0 <= doe < 146_096
    requires c == doe / 36_524 && q == (doe - 36_524 * c) / 1461 && r == doe - 36_524 * c - 1461 * q
    requires k == if r == 1460 then 3 else r / 365
    ensures (doe - doe / 1460 + doe / 36_524 - doe / 146_096) / 365 == 100 * c + 4 * q + k
  {
    assert 0 <= c <= 3 && 0 <= q <= 24 && 0 <= r <= 1460;
    var f := (24 * c + q + r) / 1460;
    assert doe == 1460 * (25 * c + q) + (24 * c + q + r);
    assert doe / 1460 == 25 * c + q + f;
    assert doe - doe / 1460 + doe / 36_524 - doe / 146_096 == 365 * (100 * c + 4 * q) + (r - f);
  }

  /** Helper: the day of the year from the same decomposition. */
  lemma DayOfYearParts(doe: int, c: int, q: int, r: int, k: int)
    requires 0 <= doe < 146_096
    requires c == doe / 36_524 && q == (doe - 36_524 * c) / 1461 && r == doe - 36_524 * c - 1461 * q
    requires k == if r == 1460 then 3 else r / 365
    ensures var yoe := 100 * c + 4 * q + k;
            0 <= doe - (365 * yoe + yoe / 4 - yoe / 100) <= 365
  {
    var yoe := 100 * c + 4 * q + k;
    assert 0 <= q <= 24 && 0 <= k <= 3;
    assert yoe / 4 == 25 * c + q;
    assert yoe / 100 == c;
    assert doe - (365 * yoe + yoe / 4 - yoe / 100) == r - 365 * k;
  }

  /** Helper: `n` zero digits (none for n <= 0). */
  function Zeros(n: int): (s: string)
    ensures |s| == if n <= 0 then 0 else n
    ensures forall i :: 0 <= i < |s| ==> s[i] == '0'
    decreases n
  {
    if n <= 0 then "" else "0" + Zeros(n - 1)
  }

  /** Go's appendInt(b, x, width) used by time.Format: a minus sign for a
      negative value, then the digits left-padded with zeros to `width`. */
  function Pad(x: int, width: nat): (s: string)
    ensures IsNumeral(s) && |s| >= width
  {
    var digits := Digits(if x < 0 then -x else x);
    (if x < 0 then "-" else "") + Zeros(width - |digits|) + digits
  }

  /** t.Format(time.DateOnly), layout "2006-01-02", on the instant's own zone. */
  function DateOnly(t: Instant): (s: string)
    ensures IsNumeral(s) && |s| >= 10
  {
    var (y, m, d) := CivilFromDays(LocalSeconds(t) / SecondsPerDay);
    Pad(y, 4) + "-" + Pad(m, 2) + "-" + Pad(d, 2)
  }

  /** Hours, minutes and seconds of the second of the day `s`, two digits
      each, with `sep` between them. */
  function DayClock(s: int, sep: string): string
  {
    Pad(s / 3600, 2) + sep + Pad(s % 3600 / 60, 2) + sep + Pad(s % 60, 2)
  }

  /** t.Format(time.TimeOnly), layout "15:04:05", on the instant's own zone. */
  function TimeOnly(t: Instant): string
  {
    DayClock(LocalSeconds(t) % SecondsPerDay, ":")
  }

  /** t.UTC().Format("20060102T150405Z"). */
  function UtcStamp(t: Instant): string
  {
    var secs := t.unixNano / NanosPerSecond;
    var (y, m, d) := CivilFromDays(secs / SecondsPerDay);
    Pad(y, 4) + Pad(m, 2) + Pad(d, 2) + "T" + DayClock(secs % SecondsPerDay, "") + "Z"
  }

  // ---------------------------------------------------------------------
  // Reading the printed fields back

  function Pow10(w: nat): nat
  {
    if w == 0 then 1 else 10 * Pow10(w - 1)
  }

  /** A number below 10^w has at most w digits. */
  lemma {:induction false} DigitsFit(n: nat, w: nat)
    requires w >= 1 && n < Pow10(w)
    ensures |Digits(n)| <= w
  {
    if n >= 10 {
      DigitsFit(n / 10, w - 1);
    }
  }

  /** A string of zeros is worth 0. */
  lemma {:induction false} ZerosValue(z: string)
    requires forall i :: 0 <= i < |z| ==> z[i] == '0'
    ensures AllDigits(z) && DigitsValue(z) == 0
  {
    if z != [] {
      ZerosValue(z[..|z| - 1]);
    }
  }

  /** Leading zeros do not change a decimal value. */
  lemma {:induction false} LeadingZerosValue(z: string, d: string)
    requires forall i :: 0 <= i < |z| ==> z[i] == '0'
    requires AllDigits(d)
    ensures AllDigits(z + d) && DigitsValue(z + d) == DigitsValue(d)
    decreases |d|
  {
    if d == [] {
      assert z + d == z;
      ZerosValue(z);
    } else {
      var init := d[..|d| - 1];
      LeadingZerosValue(z, init);
      assert (z + d)[..|z + d| - 1] == z + init;
    }
  }

  /** A field printed by Pad with room for all its digits is exactly
      `width` digits long and reads back as the value. */
  lemma PadReadsBack(x: nat, width: nat)
    requires |Digits(x)| <= width
    ensures |Pad(x, width)| == width
    ensures AllDigits(Pad(x, width)) && DigitsValue(Pad(x, width)) == x
  {
    var digits := Digits(x);
    assert Pad(x, width) == "" + Zeros(width - |digits|) + digits;
    assert "" + Zeros(width - |digits|) + digits == Zeros(width - |digits|) + digits;
    LeadingZerosValue(Zeros(width - |digits|), digits);
    DigitsValueOfDigits(x);
  }

  /** A two-digit field for a value below 100. */
  lemma TwoDigits(x: nat)
    requires x < 100
    ensures |Pad(x, 2)| == 2 && AllDigits(Pad(x, 2)) && DigitsValue(Pad(x, 2)) == x
  {
    DigitsFit(x, 2);
    PadReadsBack(x, 2);
  }

  /** The three fields DayClock prints read back as the hour (below 24),
      the minute and the second (below 60) of the second of the day `s`. */
  lemma DayClockReadsBack(s: int, sep: string)
    requires 0 <= s < SecondsPerDay && |sep| <= 1
    ensures var c := DayClock(s, sep);
            var w := |sep|;
            && |c| == 6 + 2 * w && c[2..2 + w] == sep && c[4 + w..4 + 2 * w] == sep
            && AllDigits(c[..2]) && AllDigits(c[2 + w..4 + w]) && AllDigits(c[4 + 2 * w..])
            && DigitsValue(c[..2]) < 24 && DigitsValue(c[2 + w..4 + w]) < 60 && DigitsValue(c[4 + 2 * w..]) < 60
            && DigitsValue(c[..2]) * 3600 + DigitsValue(c[2 + w..4 + w]) * 60 + DigitsValue(c[4 + 2 * w..]) == s
  {
    var h, m, sec := s / 3600, s % 3600 / 60, s % 60;
    TwoDigits(h);
    TwoDigits(m);
    TwoDigits(sec);
    ThreeFields(Pad(h, 2), Pad(m, 2), Pad(sec, 2), sep);
  }

  /** Helper: the three fields of `a + sep + b + sep + c` when each field
      is two characters long. */
  lemma ThreeFields(a: string, b: string, c: string, sep: string)
    ensures var t := a + sep + b + sep + c;
            var w := |sep|;
            |a| == 2 && |b| == 2 && |c| == 2 ==>
              && |t| == 6 + 2 * w && t[2..2 + w] == sep && t[4 + w..4 + 2 * w] == sep
              && t[..2] == a && t[2 + w..4 + w] == b && t[4 + 2 * w..] == c
  {
  }

  /** The hour, minute and second printed by TimeOnly read back as the
      seconds elapsed since midnight on the instant's own wall clock. */
  lemma TimeOnlyReadsBack(t: Instant)
    ensures var s := TimeOnly(t);
            && |s| == 8 && s[2] == ':' && s[5] == ':'
            && AllDigits(s[..2]) && AllDigits(s[3..5]) && AllDigits(s[6..])
            && DigitsValue(s[..2]) < 24 && DigitsValue(s[3..5]) < 60 && DigitsValue(s[6..]) < 60
            && DigitsValue(s[..2]) * 3600 + DigitsValue(s[3..5]) * 60 + DigitsValue(s[6..])
               == LocalSeconds(t) % SecondsPerDay
  {
    var s := TimeOnly(t);
    DayClockReadsBack(LocalSeconds(t) % SecondsPerDay, ":");
    assert s[2..3] == ":" && s[5..6] == ":";
  }

  /** Helper: the fields of a date printed as `y + [s] + m + [s] + d`. */
  lemma DateFields(y: string, m: string, d: string, sep: char)
    requires |y| == 4 && |m| == 2 && |d| == 2
    ensures var t := y + [sep] + m + [sep] + d;
            |t| == 10 && t[4] == sep && t[7] == sep && t[..4] == y && t[5..7] == m && t[8..] == d
  {
  }

  /** For a four-digit year, DateOnly prints year, month and day of the
      instant's local day, and they read back as CivilFromDays gives them:
      a month from 1 to 12 and a day from 1 to 31. */
  lemma DateOnlyReadsBack(t: Instant)
    requires 0 <= CivilFromDays(LocalSeconds(t) / SecondsPerDay).0 < 10_000
    ensures var s := DateOnly(t);
            var (y, m, d) := CivilFromDays(LocalSeconds(t) / SecondsPerDay);
            && |s| == 10 && s[4] == '-' && s[7] == '-'
            && AllDigits(s[..4]) && AllDigits(s[5..7]) && AllDigits(s[8..])
            && DigitsValue(s[..4]) == y && DigitsValue(s[5..7]) == m && DigitsValue(s[8..]) == d
            && 1 <= m <= 12 && 1 <= d <= 31
  {
    var (y, m, d) := CivilFromDays(LocalSeconds(t) / SecondsPerDay);
    CivilFromDaysBounds(LocalSeconds(t) / SecondsPerDay);
    DigitsFit(y, 4);
    PadReadsBack(y, 4);
    TwoDigits(m);
    TwoDigits(d);
    DateFields(Pad(y, 4), Pad(m, 2), Pad(d, 2), '-');
  }

  /** The epoch in UTC is 1970-01-01; the same instant shown one hour west
      of UTC falls on the day before. Equal instants can print different
      dates. */
  lemma DateOnlyIsLocal()
    ensures DateOnly(Instant(0, 0)) == "1970-01-01"
    ensures DateOnly(Instant(0, -3600)) == "1969-12-31"
    ensures Equal(Instant(0, 0), Instant(0, -3600))
  {
    EpochDay();
    DateOnlyOf(Instant(0, 0), 0, 1970, 1, 1);
    PadEpoch();
    DayBeforeEpoch();
    DateOnlyOf(Instant(0, -3600), -1, 1969, 12, 31);
    PadDayBeforeEpoch();
  }

  /** Helper: DateOnly from the civil date of the local day. */
  lemma DateOnlyOf(t: Instant, day: int, y: int, m: int, d: int)
    requires LocalSeconds(t) / SecondsPerDay == day && CivilFromDays(day) == (y, m, d)
    ensures DateOnly(t) == Pad(y, 4) + "-" + Pad(m, 2) + "-" + Pad(d, 2)
  {
  }

  /** Helper: day 0 is 1970-01-01. */
  lemma EpochDay()
    ensures CivilFromDays(0) == (1970, 1, 1)
  {
    assert 719_468 / 146_097 == 4 && 719_468 % 146_097 == 135_080;
    assert 135_080 / 1460 == 92 && 135_080 / 36_524 == 3 && 135_080 / 146_096 == 0;
    assert 134_991 / 365 == 369;
    assert 369 / 4 == 92 && 369 / 100 == 3;
    assert 1532 / 153 == 10 && 1532 / 5 == 306;
  }

  /** Helper: day -1 is 1969-12-31. */
  lemma DayBeforeEpoch()
    ensures CivilFromDays(-1) == (1969, 12, 31)
  {
    assert 719_467 / 146_097 == 4 && 719_467 % 146_097 == 135_079;
    assert 135_079 / 1460 == 92 && 135_079 / 36_524 == 3 && 135_079 / 146_096 == 0;
    assert 134_990 / 365 == 369;
    assert 369 / 4 == 92 && 369 / 100 == 3;
    assert 1527 / 153 == 9 && 1379 / 5 == 275;
  }

  /** Helper: the printed fields of 1970-01-01. */
  lemma PadEpoch()
    ensures Pad(1970, 4) == "1970" && Pad(1, 2) == "01"
  {
    assert Digits(1970) == "1970";
  }

  /** Helper: the printed fields of 1969-12-31. */
  lemma PadDayBeforeEpoch()
    ensures Pad(1969, 4) == "1969" && Pad(12, 2) == "12" && Pad(31, 2) == "31"
  {
    assert Digits(1969) == "1969";
  }

  /** `c` is six digits, hour, minute and second, that read back as the
      second of the day `s`. */
  predicate ReadsAsClock(c: string, s: int)
  {
    && |c| == 6
    && AllDigits(c[..2]) && AllDigits(c[2..4]) && AllDigits(c[4..])
    && DigitsValue(c[..2]) * 3600 + DigitsValue(c[2..4]) * 60 + DigitsValue(c[4..]) == s
  }

  /** The stamp ends in "Z" after six time digits that read back as the
      seconds since midnight UTC, preceded by "T"; it depends only on the
      instant, so Equal instants print the same stamp. */
  lemma UtcStampReadsBack(t: Instant, u: Instant)
    ensures var s := UtcStamp(t);
            && |s| >= 16 && s[|s| - 1] == 'Z' && s[|s| - 8] == 'T'
            && ReadsAsClock(s[|s| - 7..|s| - 1], t.unixNano / NanosPerSecond % SecondsPerDay)
    ensures Equal(t, u) ==> UtcStamp(t) == UtcStamp(u)
  {
    var secs := t.unixNano / NanosPerSecond;
    var (y, m, d) := CivilFromDays(secs / SecondsPerDay);
    var clock := DayClock(secs % SecondsPerDay, "");
    DayClockReadsBack(secs % SecondsPerDay, "");
    StampFields(Pad(y, 4) + Pad(m, 2) + Pad(d, 2), clock);
  }

  /** Helper: the clock at the end of `date + "T" + clock + "Z"`. */
  lemma StampFields(date: string, clock: string)
    ensures var t := date + "T" + clock + "Z";
            var n := |t|;
            |clock| == 6 ==> n == |date| + 8 && t[n - 1] == 'Z' && t[n - 8] == 'T' && t[n - 7..n - 1] == clock
  {
  }
}
