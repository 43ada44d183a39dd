/** One outage record as the provider reports it, and the two conversions
    the program applies to it (barghman_client.go). */
module Outage {
  import opened Text
  import opened Clock
  import opened Cache

  /** Data: one record of the provider's response. */
  datatype Data = Data(
    regDate: string,
    registrar: string,
    reasonOutage: string,
    outageDate: string,       // "year/month/day" in the Persian calendar
    outageTime: string,
    outageStartTime: string,  // "hour:minute"
    outageStopTime: string,   // "hour:minute"
    isPlanned: bool,
    address: string,
    outageAddress: string,
    city: int,
    outageNumber: int,
    trackingCode: int)

  /** ErrInvalidOutageDateFormat, the one error ParseTime reports. */
  datatype ParseError = InvalidOutageDateFormat

  /** The three results of ParseTime: start, stop and error. */
  datatype Times = Times(start: Instant, stop: Instant, err: Option<ParseError>)

  /** Every part is an integer strconv.Atoi reads. */
  predicate AllConvert(parts: seq<string>)
  {
    forall i :: 0 <= i < |parts| ==> Atoi(parts[i]).Some?
  }

  /** Helper: AllConvert of two pieces, one by one. */
  lemma AllConvertTwo(parts: seq<string>)
    requires |parts| == 2
    ensures AllConvert(parts) <==> Atoi(parts[0]).Some? && Atoi(parts[1]).Some?
  {
  }

  /** Helper: AllConvert of three pieces, one by one. */
  lemma AllConvertThree(parts: seq<string>)
    requires |parts| == 3
    ensures AllConvert(parts) <==> Atoi(parts[0]).Some? && Atoi(parts[1]).Some? && Atoi(parts[2]).Some?
  {
  }

  /** What ParseTime accepts: a date with exactly two '/', start and stop
      times with exactly one ':' each, and each of the seven parts an
      integer that strconv.Atoi reads. */
  predicate WellFormed(d: Data)
  {
    && Count(d.outageDate, '/') == 2
    && Count(d.outageStartTime, ':') == 1
    && Count(d.outageStopTime, ':') == 1
    && AllConvert(Split(d.outageDate, '/'))
    && AllConvert(Split(d.outageStartTime, ':'))
    && AllConvert(Split(d.outageStopTime, ':'))
  }

  /** The split-and-convert part of ParseTime: the Persian wall clocks of the
      start and of the stop, or None where ParseTime fails. */
  function ParseClocks(d: Data): (r: Option<(WallClock, WallClock)>)
    ensures r.Some? <==> WellFormed(d)
    ensures r.Some? ==> r.value.0.year == r.value.1.year && r.value.0.month == r.value.1.month
                        && r.value.0.day == r.value.1.day
  {
    var date := Split(d.outageDate, '/');
    if |date| != 3 then None
    else
      var startHM := Split(d.outageStartTime, ':');
      if |startHM| != 2 then None
      else
        var stopHM := Split(d.outageStopTime, ':');
        if |stopHM| != 2 then None
        else
          AllConvertThree(date);
          AllConvertTwo(startHM);
          AllConvertTwo(stopHM);
          var year, month, day := Atoi(date[0]), Atoi(date[1]), Atoi(date[2]);
          var startHour, startMinute := Atoi(startHM[0]), Atoi(startHM[1]);
          var stopHour, stopMinute := Atoi(stopHM[0]), Atoi(stopHM[1]);
          if year.None? || month.None? || day.None? || startHour.None? || startMinute.None?
             || stopHour.None? || stopMinute.None?
          then None
          else
            Some((WallClock(year.value, month.value, day.value, startHour.value, startMinute.value),
                  WallClock(year.value, month.value, day.value, stopHour.value, stopMinute.value)))
  }

  /** Data.ParseTime(loc): both instants on the record's Persian date in
      `loc`, at its start and stop hour and minute; on a malformed record,
      ErrInvalidOutageDateFormat with two zero times. */
  function ParseTime(d: Data, loc: Location): (r: Times)
    ensures r.err.None? <==> WellFormed(d)
    ensures r.err.Some? ==> r.err == Some(InvalidOutageDateFormat) && r.start == ZeroTime && r.stop == ZeroTime
    ensures r.err.None? ==>
              && r.start == loc.persianDate(ParseClocks(d).value.0)
              && r.stop == loc.persianDate(ParseClocks(d).value.1)
  {
    match ParseClocks(d)
    case None => Times(ZeroTime, ZeroTime, Some(InvalidOutageDateFormat))
    case Some((start, stop)) => Times(loc.persianDate(start), loc.persianDate(stop), None)
  }

  /** Splitting "a/b/c" printed with %d gives back the three numerals. */
  lemma SplitThreeNumerals(a: int, b: int, c: int, sep: char)
    requires !IsDigit(sep) && sep != '-'
    ensures Split(Dec(a) + [sep] + Dec(b) + [sep] + Dec(c), sep) == [Dec(a), Dec(b), Dec(c)]
  {
    NumeralLacks(Dec(a), sep);
    NumeralLacks(Dec(b), sep);
    NumeralLacks(Dec(c), sep);
    SplitThree(Dec(a), Dec(b), Dec(c), sep);
  }

  /** Three separator-free pieces joined by `sep` split back into them. */
  lemma SplitThree(a: string, b: string, c: string, sep: char)
    requires sep !in a && sep !in b && sep !in c
    ensures Split(a + [sep] + b + [sep] + c, sep) == [a, b, c]
  {
    var bc := b + [sep] + c;
    SplitPair(b, c, sep);
    SplitFirstPiece(a, sep, bc);
    Regroup(a, b, c, sep);
    assert [a] + [b, c] == [a, b, c];
  }

  /** Helper: the two separators of a three-piece text, regrouped. */
  lemma Regroup(a: string, b: string, c: string, sep: char)
    ensures a + [sep] + b + [sep] + c == a + [sep] + (b + [sep] + c)
  {
  }

  /** Two separator-free pieces joined by `sep` split back into them. */
  lemma SplitPair(a: string, b: string, sep: char)
    requires sep !in a && sep !in b
    ensures Split(a + [sep] + b, sep) == [a, b]
  {
    SplitWithoutSeparator(b, sep);
    SplitFirstPiece(a, sep, b);
  }

  /** Splitting "a:b" printed with %d gives back the two numerals. */
  lemma SplitTwoNumerals(a: int, b: int, sep: char)
    requires !IsDigit(sep) && sep != '-'
    ensures Split(Dec(a) + [sep] + Dec(b), sep) == [Dec(a), Dec(b)]
  {
    NumeralLacks(Dec(a), sep);
    NumeralLacks(Dec(b), sep);
    SplitPair(Dec(a), Dec(b), sep);
  }

  /** Whatever int64 values the provider prints, ParseTime reads them back:
      there is no range check on hours or minutes and no check that the
      stop follows the start. */
  lemma ParseTimeRoundTrip(d: Data, loc: Location, year: int, month: int, day: int,
                           startHour: int, startMinute: int, stopHour: int, stopMinute: int)
    requires IsInt64(year) && IsInt64(month) && IsInt64(day)
    requires IsInt64(startHour) && IsInt64(startMinute) && IsInt64(stopHour) && IsInt64(stopMinute)
    requires d.outageDate == Dec(year) + "/" + Dec(month) + "/" + Dec(day)
    requires d.outageStartTime == Dec(startHour) + ":" + Dec(startMinute)
    requires d.outageStopTime == Dec(stopHour) + ":" + Dec(stopMinute)
    ensures ParseTime(d, loc)
         == Times(loc.persianDate(WallClock(year, month, day, startHour, startMinute)),
                  loc.persianDate(WallClock(year, month, day, stopHour, stopMinute)), None)
  {
    SplitThreeNumerals(year, month, day, '/');
    SplitTwoNumerals(startHour, startMinute, ':');
    SplitTwoNumerals(stopHour, stopMinute, ':');
    AtoiDec(year); AtoiDec(month); AtoiDec(day);
    AtoiDec(startHour); AtoiDec(startMinute); AtoiDec(stopHour); AtoiDec(stopMinute);
    assert ParseClocks(d) == Some((WallClock(year, month, day, startHour, startMinute),
                                   WallClock(year, month, day, stopHour, stopMinute)));
  }

  /** The record ToFileContent builds from the parsed times `t`. */
  function Converted(d: Data, t: Times, billID: string, recipients: seq<string>, sequence: Uint)
    : (r: FileContent)
    ensures r.startOutageDateTime == t.start && r.endOutageDateTime == t.stop && r.sequence == sequence
  {
    FileContent(
      uid := billID + "_" + Dec(d.outageNumber) + "_" + DateOnly(t.start),
      billID := billID,
      sequence := sequence,
      outageNumber := d.outageNumber,
      farsiOutageDate := d.outageDate,
      startOutageDateTime := t.start,
      endOutageDateTime := t.stop,
      recipients := recipients,
      address := d.address,
      reasonOutage := d.reasonOutage)
  }

  /** Data.ToFileContent: the record to cache for this outage, or None
      exactly when ParseTime fails. */
  function ToFileContent(d: Data, loc: Location, billID: string, recipients: seq<string>, sequence: Uint)
    : (r: Option<FileContent>)
    ensures r.None? <==> ParseTime(d, loc).err.Some?
    ensures r.Some? ==>
      && r.value.uid == billID + "_" + Dec(d.outageNumber) + "_" + DateOnly(ParseTime(d, loc).start)
      && r.value.billID == billID && r.value.sequence == sequence
      && r.value.outageNumber == d.outageNumber && r.value.farsiOutageDate == d.outageDate
      && r.value.startOutageDateTime == ParseTime(d, loc).start
      && r.value.endOutageDateTime == ParseTime(d, loc).stop
      && r.value.recipients == recipients
      && r.value.address == d.address && r.value.reasonOutage == d.reasonOutage
  {
    var t := ParseTime(d, loc);
    if t.err.Some? then None
    else Some(Converted(d, t, billID, recipients, sequence))
  }

  /** Once ParseTime has succeeded, ToFileContent builds, for every
      sequence, the record of the parsed times. */
  lemma ToFileContentConverts(d: Data, loc: Location, billID: string, recipients: seq<string>)
    requires ParseTime(d, loc).err.None?
    ensures forall s: Uint :: ToFileContent(d, loc, billID, recipients, s)
                           == Some(Converted(d, ParseTime(d, loc), billID, recipients, s))
  {
  }

  /** The cache file of a converted record is its UID with ".json". */
  lemma ConvertedFileName(d: Data, loc: Location, billID: string, recipients: seq<string>, sequence: Uint)
    requires ParseTime(d, loc).err.None?
    ensures ToFileContent(d, loc, billID, recipients, sequence).Some?
    ensures var f := ToFileContent(d, loc, billID, recipients, sequence).value;
            f.Name() == f.uid + ".json"
            && f.Name() == FileName(billID, d.outageNumber, ParseTime(d, loc).start)
  {
  }
}
