/** The blog publish date: `datetime.strptime(text, "%Y. %m. %d. %H:%M")`.

    The grammar is the one Python's `_strptime` builds for that format: `%Y`
    is exactly four digits, `%m`, `%d`, `%H` and `%M` are one or two digits in
    their ranges (01-12 or 1-9, 01-31 or 1-9, 00-23 or 0-9, 00-59 or 0-9), each
    space of the format matches one or more whitespace characters, and the
    whole text must be consumed. The fields must then form a real calendar
    date (year at least 1, day within its month). */
module BlogDate {
  import opened Wrappers
  import opened Text

  datatype DateTime = DateTime(year: nat, month: nat, day: nat, hour: nat, minute: nat)

  predicate IsLeapYear(y: nat) {
    y % 4 == 0 && (y % 100 != 0 || y % 400 == 0)
  }

  function DaysInMonth(y: nat, m: nat): (n: nat)
    requires 1 <= m <= 12
    ensures 28 <= n <= 31
    ensures n == 29 <==> m == 2 && IsLeapYear(y)
  {
    if m == 2 then (if IsLeapYear(y) then 29 else 28)
    else if m == 4 || m == 6 || m == 9 || m == 11 then 30
    else 31
  }

  /** What `datetime(year, month, day, hour, minute)` accepts. */
  predicate ValidDateTime(d: DateTime) {
    && 1 <= d.year <= 9999
    && 1 <= d.month <= 12
    && 1 <= d.day <= DaysInMonth(d.year, d.month)
    && d.hour < 24
    && d.minute < 60
  }

  /** One `%m`/`%d`/`%H`/`%M` field at the front of `s`: one or two digits
      whose value lies in `lo..hi`; returns the value and the rest. */
  function TakeField(s: string, lo: nat, hi: nat): (r: Option<(nat, string)>)
    ensures r.Some? ==> lo <= r.value.0 <= hi
    ensures r.Some? ==> exists n | 1 <= n <= 2 && n <= |s| ::
      AllDigits(s[..n]) && r.value.0 == ParseNat(s[..n]) && r.value.1 == s[n..]
  {
    var n := DigitRunLength(s, 0);
    if 1 <= n <= 2 && lo <= ParseNat(s[..n]) <= hi then Some((ParseNat(s[..n]), s[n..])) else None
  }

  /** A literal separator character followed by `\s+`, at the front of `s`. */
  function TakeSeparator(s: string, c: char): (r: Option<string>)
    ensures r.Some? ==> |r.value| + 2 <= |s| && s[0] == c && IsSpace(s[1])
  {
    if |s| == 0 || s[0] != c then None
    else
      var n := RunLength(s, 1, IsSpace);
      if n == 0 then None else Some(s[1 + n..])
  }

  /** `datetime.strptime(s, "%Y. %m. %d. %H:%M")`, `None` where Python raises `ValueError`. */
  function ParseBlogDate(s: string): (r: Option<DateTime>)
    ensures r.Some? ==> ValidDateTime(r.value)
  {
    if |s| < 4 || !AllDigits(s[..4]) then None
    else ParseMonthOn(ParseNat(s[..4]), s[4..])
  }

  /** The text after the year: `". " %m` and the rest. */
  function ParseMonthOn(year: nat, t: string): (r: Option<DateTime>)
    ensures r.Some? ==> ValidDateTime(r.value)
  {
    var t1 := TakeSeparator(t, '.');
    if t1.None? then None else
    var month := TakeField(t1.value, 1, 12);
    if month.None? then None else
    ParseDayOn(year, month.value.0, month.value.1)
  }

  /** The text after the month: `". " %d` and the rest. */
  function ParseDayOn(year: nat, month: nat, t: string): (r: Option<DateTime>)
    ensures r.Some? ==> ValidDateTime(r.value)
  {
    var t1 := TakeSeparator(t, '.');
    if t1.None? then None else
    var day := TakeField(t1.value, 1, 31);
    if day.None? then None else
    ParseTimeOn(year, month, day.value.0, day.value.1)
  }

  /** The text after the day: `". " %H ":" %M`, which must end the text, then the calendar check. */
  function ParseTimeOn(year: nat, month: nat, day: nat, t: string): (r: Option<DateTime>)
    ensures r.Some? ==> ValidDateTime(r.value)
  {
    var t1 := TakeSeparator(t, '.');
    if t1.None? then None else
    var hour := TakeField(t1.value, 0, 23);
    if hour.None? then None else
    var rest := hour.value.1;
    if |rest| == 0 || rest[0] != ':' then None else
    var minute := TakeField(rest[1..], 0, 59);
    if minute.None? || minute.value.1 != [] then None else
    var d := DateTime(year, month, day, hour.value.0, minute.value.0);
    if ValidDateTime(d) then Some(d) else None
  }

  /** The ranges the field grammar itself admits; the calendar check comes after. */
  predicate FieldsInRange(d: DateTime) {
    && d.year <= 9999
    && 1 <= d.month <= 12
    && 1 <= d.day <= 31
    && d.hour < 24
    && d.minute < 60
  }

  /** Two zero-padded digits. */
  function Pad2(n: nat): (s: string)
    requires n < 100
    ensures |s| == 2 && AllDigits(s)
    ensures ParseNat(s) == n
  {
    var s := [DigitChar(n / 10), DigitChar(n % 10)];
    ParseNatAppend([], DigitChar(n / 10));
    ParseNatAppend([DigitChar(n / 10)], DigitChar(n % 10));
    assert [] + [DigitChar(n / 10)] == [DigitChar(n / 10)];
    s
  }

  /** Four zero-padded digits. */
  function Pad4(n: nat): (s: string)
    requires n < 10000
    ensures |s| == 4 && AllDigits(s)
    ensures ParseNat(s) == n
  {
    var s := Pad2(n / 100) + Pad2(n % 100);
    var a, b := Pad2(n / 100), Pad2(n % 100);
    ParseNatAppend(a, b[0]);
    ParseNatAppend(a + [b[0]], b[1]);
    assert a + [b[0]] + [b[1]] == s;
    assert ParseNat(b) == 10 * DigitValue(b[0]) + DigitValue(b[1]) by {
      ParseNatAppend([], b[0]);
      assert [] + [b[0]] == [b[0]] == b[..1];
    }
    s
  }

  /** `d.strftime("%Y. %m. %d. %H:%M")`, the zero-padded text of a date-time. */
  function FormatBlogDate(d: DateTime): (s: string)
    requires FieldsInRange(d)
  {
    Pad4(d.year) + (". " + (Pad2(d.month) + (". " + (Pad2(d.day) + (". " + (Pad2(d.hour) + (":" + Pad2(d.minute))))))))
  }

  /** A field of one or two digits in range, followed by a non-digit, is read as its value. */
  lemma {:induction false} TakeDigitsField(ds: string, rest: string, lo: nat, hi: nat)
    requires 1 <= |ds| <= 2 && AllDigits(ds) && lo <= ParseNat(ds) <= hi
    requires rest == [] || !IsDigit(rest[0])
    ensures TakeField(ds + rest, lo, hi) == Some((ParseNat(ds), rest))
  {
    var s := ds + rest;
    RunOfPrefix([], ds, rest, IsDigit);
    assert [] + ds + rest == s;
    assert s[..|ds|] == ds;
  }

  /** A separator character, a run of whitespace, then a non-space: the run is skipped. */
  lemma {:induction false} TakeSeparatorSpaces(c: char, ws: string, rest: string)
    requires ws != [] && IsBlank(ws)
    requires rest == [] || !IsSpace(rest[0])
    ensures TakeSeparator([c] + ws + rest, c) == Some(rest)
  {
    RunOfPrefix([c], ws, rest, IsSpace);
    assert ([c] + ws + rest)[1 + |ws|..] == rest;
  }

  lemma {:induction false} ParseFormattedTime(d: DateTime)
    requires FieldsInRange(d)
    ensures ParseTimeOn(d.year, d.month, d.day, ". " + (Pad2(d.hour) + (":" + Pad2(d.minute))))
         == (if ValidDateTime(d) then Some(d) else None)
  {
    var tMin := ":" + Pad2(d.minute);
    var tHour := Pad2(d.hour) + tMin;
    assert ". " + tHour == ['.'] + " " + tHour;
    TakeSeparatorSpaces('.', " ", tHour);
    TakeDigitsField(Pad2(d.hour), tMin, 0, 23);
    assert tMin[1..] == Pad2(d.minute) + [];
    TakeDigitsField(Pad2(d.minute), [], 0, 59);
  }

  lemma {:induction false} ParseFormattedDay(d: DateTime)
    requires FieldsInRange(d)
    ensures ParseDayOn(d.year, d.month, ". " + (Pad2(d.day) + (". " + (Pad2(d.hour) + (":" + Pad2(d.minute))))))
         == (if ValidDateTime(d) then Some(d) else None)
  {
    var tHour := ". " + (Pad2(d.hour) + (":" + Pad2(d.minute)));
    var tDay := Pad2(d.day) + tHour;
    assert ". " + tDay == ['.'] + " " + tDay;
    TakeSeparatorSpaces('.', " ", tDay);
    TakeDigitsField(Pad2(d.day), tHour, 1, 31);
    ParseFormattedTime(d);
  }

  lemma {:induction false} ParseFormattedMonth(d: DateTime)
    requires FieldsInRange(d)
    ensures ParseMonthOn(d.year, FormatBlogDate(d)[4..]) == (if ValidDateTime(d) then Some(d) else None)
  {
    var tDay := ". " + (Pad2(d.day) + (". " + (Pad2(d.hour) + (":" + Pad2(d.minute)))));
    var tMonth := Pad2(d.month) + tDay;
    assert FormatBlogDate(d)[4..] == ['.'] + " " + tMonth;
    TakeSeparatorSpaces('.', " ", tMonth);
    TakeDigitsField(Pad2(d.month), tDay, 1, 12);
    ParseFormattedDay(d);
  }

  /** Parsing the zero-padded text of any in-range fields gives them back exactly
      when they form a calendar date, and fails otherwise. */
  lemma {:induction false} ParseFormatBlogDate(d: DateTime)
    requires FieldsInRange(d)
    ensures ParseBlogDate(FormatBlogDate(d)) == (if ValidDateTime(d) then Some(d) else None)
  {
    var s := FormatBlogDate(d);
    assert s[..4] == Pad4(d.year);
    ParseFormattedMonth(d);
  }

  /** One `%m`/`%d`/`%H`/`%M` field as written: one or two digits. */
  predicate ShortField(ds: string) {
    1 <= |ds| <= 2 && AllDigits(ds)
  }

  /** A field as written whose value lies in `lo..hi`. */
  predicate FieldIn(ds: string, lo: nat, hi: nat) {
    ShortField(ds) && lo <= ParseNat(ds) <= hi
  }

  /** What one space of the format matches: a non-empty run of whitespace. */
  predicate Gap(w: string) {
    w != [] && IsBlank(w)
  }

  /** A text cut into the pieces of "%Y. %m. %d. %H:%M": the year, then for
      each later field the whitespace run after its separator and its digits. */
  datatype DateText = DateText(yyyy: string, w0: string, mo: string, w1: string, dd: string, w2: string, hh: string, mm: string)

  /** The pieces are what the format's grammar admits: four year digits, each
      field one or two digits in its range, each space a run of whitespace. */
  predicate InDateFormat(p: DateText) {
    && |p.yyyy| == 4 && AllDigits(p.yyyy)
    && Gap(p.w0) && Gap(p.w1) && Gap(p.w2)
    && FieldIn(p.mo, 1, 12) && FieldIn(p.dd, 1, 31) && FieldIn(p.hh, 0, 23) && FieldIn(p.mm, 0, 59)
  }

  /** The text the pieces spell. */
  function Written(p: DateText): string {
    p.yyyy + "." + p.w0 + p.mo + "." + p.w1 + p.dd + "." + p.w2 + p.hh + ":" + p.mm
  }

  /** The date-time the fields of the pieces name. */
  function DateOf(p: DateText): DateTime
    requires InDateFormat(p)
  {
    DateTime(ParseNat(p.yyyy), ParseNat(p.mo), ParseNat(p.dd), ParseNat(p.hh), ParseNat(p.mm))
  }

  lemma {:induction false} ParseTimePieces(year: nat, month: nat, day: nat, w: string, hh: string, mm: string)
    requires Gap(w) && FieldIn(hh, 0, 23) && FieldIn(mm, 0, 59)
    ensures var d := DateTime(year, month, day, ParseNat(hh), ParseNat(mm));
      ParseTimeOn(year, month, day, "." + w + (hh + (":" + mm))) == if ValidDateTime(d) then Some(d) else None
  {
    var tMin := ":" + mm;
    TakeSeparatorSpaces('.', w, hh + tMin);
    TakeDigitsField(hh, tMin, 0, 23);
    assert tMin[1..] == mm + [];
    TakeDigitsField(mm, [], 0, 59);
  }

  lemma {:induction false} ParseDayPieces(year: nat, month: nat, w1: string, dd: string, w2: string, hh: string, mm: string)
    requires Gap(w1) && Gap(w2) && FieldIn(dd, 1, 31) && FieldIn(hh, 0, 23) && FieldIn(mm, 0, 59)
    ensures var d := DateTime(year, month, ParseNat(dd), ParseNat(hh), ParseNat(mm));
      ParseDayOn(year, month, "." + w1 + (dd + ("." + w2 + (hh + (":" + mm))))) == if ValidDateTime(d) then Some(d) else None
  {
    var tHour := "." + w2 + (hh + (":" + mm));
    TakeSeparatorSpaces('.', w1, dd + tHour);
    TakeDigitsField(dd, tHour, 1, 31);
    ParseTimePieces(year, month, ParseNat(dd), w2, hh, mm);
  }

  lemma {:induction false} ParseMonthPieces(year: nat, w0: string, mo: string, w1: string, dd: string, w2: string, hh: string, mm: string)
    requires Gap(w0) && Gap(w1) && Gap(w2)
    requires FieldIn(mo, 1, 12) && FieldIn(dd, 1, 31) && FieldIn(hh, 0, 23) && FieldIn(mm, 0, 59)
    ensures var d := DateTime(year, ParseNat(mo), ParseNat(dd), ParseNat(hh), ParseNat(mm));
      ParseMonthOn(year, "." + w0 + (mo + ("." + w1 + (dd + ("." + w2 + (hh + (":" + mm)))))))
        == if ValidDateTime(d) then Some(d) else None
  {
    var tDay := "." + w1 + (dd + ("." + w2 + (hh + (":" + mm))));
    TakeSeparatorSpaces('.', w0, mo + tDay);
    TakeDigitsField(mo, tDay, 1, 12);
    ParseDayPieces(year, ParseNat(mo), w1, dd, w2, hh, mm);
  }

  /** The written form, regrouped from the right as the parsing steps consume it. */
  lemma RegroupWritten(p: DateText)
    ensures Written(p) == p.yyyy + ("." + p.w0 + (p.mo + ("." + p.w1 + (p.dd + ("." + p.w2 + (p.hh + (":" + p.mm)))))))
  {
  }

  /** What `strptime` accepts for this format: every text in the format is
      accepted exactly when its fields name a date on the calendar, and is
      read as that date. */
  lemma ParseBlogDatePieces(p: DateText)
    requires InDateFormat(p)
    ensures ParseBlogDate(Written(p)) == if ValidDateTime(DateOf(p)) then Some(DateOf(p)) else None
  {
    var s := Written(p);
    RegroupWritten(p);
    assert s[..4] == p.yyyy;
    ParseMonthPieces(ParseNat(p.yyyy), p.w0, p.mo, p.w1, p.dd, p.w2, p.hh, p.mm);
  }

  /** A field `TakeField` accepts is one or two digits standing at the front of the text. */
  lemma TakeFieldSound(s: string, lo: nat, hi: nat) returns (ds: string)
    requires TakeField(s, lo, hi).Some?
    ensures FieldIn(ds, lo, hi)
    ensures s == ds + TakeField(s, lo, hi).value.1 && TakeField(s, lo, hi).value.0 == ParseNat(ds)
  {
    var n := DigitRunLength(s, 0);
    ds := s[..n];
    assert s == s[..n] + s[n..];
  }

  /** A separator `TakeSeparator` accepts is the character followed by a non-empty run of whitespace. */
  lemma TakeSeparatorSound(s: string, c: char) returns (w: string)
    requires TakeSeparator(s, c).Some?
    ensures Gap(w) && s == [c] + w + TakeSeparator(s, c).value
  {
    var n := RunLength(s, 1, IsSpace);
    w := s[1..1 + n];
    assert s == [s[0]] + s[1..1 + n] + s[1 + n..];
  }

  /** The steps `ParseTimeOn` takes on a text it accepts. */
  predicate TimeSteps(t: string) {
    && TakeSeparator(t, '.').Some?
    && TakeField(TakeSeparator(t, '.').value, 0, 23).Some?
    && var rest := TakeField(TakeSeparator(t, '.').value, 0, 23).value.1;
      && |rest| > 0 && rest[0] == ':'
      && TakeField(rest[1..], 0, 59).Some? && TakeField(rest[1..], 0, 59).value.1 == []
  }

  lemma ParseTimeSteps(year: nat, month: nat, day: nat, t: string)
    requires ParseTimeOn(year, month, day, t).Some?
    ensures TimeSteps(t)
  {
  }

  lemma ParseTimeSound(t: string) returns (w: string, hh: string, mm: string)
    requires TimeSteps(t)
    ensures Gap(w) && FieldIn(hh, 0, 23) && FieldIn(mm, 0, 59)
    ensures t == "." + w + (hh + (":" + mm))
  {
    var sep := TakeSeparator(t, '.').value;
    w := TakeSeparatorSound(t, '.');
    hh := TakeFieldSound(sep, 0, 23);
    mm := MinuteSound(TakeField(sep, 0, 23).value.1);
  }

  lemma MinuteSound(rest: string) returns (mm: string)
    requires |rest| > 0 && rest[0] == ':'
    requires TakeField(rest[1..], 0, 59).Some? && TakeField(rest[1..], 0, 59).value.1 == []
    ensures FieldIn(mm, 0, 59) && rest == ":" + mm
  {
    mm := TakeFieldSound(rest[1..], 0, 59);
    assert rest == [rest[0]] + rest[1..];
  }

  lemma ParseDaySound(year: nat, month: nat, t: string) returns (w1: string, dd: string, w2: string, hh: string, mm: string)
    requires ParseDayOn(year, month, t).Some?
    ensures Gap(w1) && Gap(w2) && FieldIn(dd, 1, 31) && FieldIn(hh, 0, 23) && FieldIn(mm, 0, 59)
    ensures t == "." + w1 + (dd + ("." + w2 + (hh + (":" + mm))))
  {
    var sep := TakeSeparator(t, '.');
    var day := TakeField(sep.value, 1, 31);
    w1 := TakeSeparatorSound(t, '.');
    dd := TakeFieldSound(sep.value, 1, 31);
    ParseTimeSteps(year, month, ParseNat(dd), day.value.1);
    w2, hh, mm := ParseTimeSound(day.value.1);
  }

  lemma ParseMonthSound(s: string) returns (p: DateText)
    requires |s| >= 4 && AllDigits(s[..4]) && ParseMonthOn(ParseNat(s[..4]), s[4..]).Some?
    ensures InDateFormat(p) && s == Written(p)
    ensures ParseMonthOn(ParseNat(s[..4]), s[4..]) == Some(DateOf(p))
  {
    var yyyy, t := s[..4], s[4..];
    var sep := TakeSeparator(t, '.');
    var month := TakeField(sep.value, 1, 12);
    var w0 := TakeSeparatorSound(t, '.');
    var mo := TakeFieldSound(sep.value, 1, 12);
    var w1, dd, w2, hh, mm := ParseDaySound(ParseNat(yyyy), ParseNat(mo), month.value.1);
    p := DateText(yyyy, w0, mo, w1, dd, w2, hh, mm);
    RegroupWritten(p);
    assert s == yyyy + t;
    ParseMonthPieces(ParseNat(yyyy), w0, mo, w1, dd, w2, hh, mm);
  }

  /** The converse of `ParseBlogDatePieces`: every text `strptime` accepts is
      in the format "%Y. %m. %d. %H:%M" (nothing before the year, nothing after
      the minutes), and the result is the date its fields name. */
  lemma ParseBlogDateSound(s: string) returns (p: DateText)
    requires ParseBlogDate(s).Some?
    ensures InDateFormat(p) && s == Written(p)
    ensures ParseBlogDate(s) == Some(DateOf(p))
  {
    p := ParseMonthSound(s);
  }

  /** An accepted text starts with four digits and a full stop and ends with a digit. */
  lemma AcceptedShape(s: string)
    ensures ParseBlogDate(s).Some? ==> |s| >= 5 && AllDigits(s[..4]) && s[4] == '.' && IsDigit(s[|s| - 1])
  {
    if ParseBlogDate(s).Some? {
      var p := ParseBlogDateSound(s);
      RegroupWritten(p);
      assert s[..4] == p.yyyy && s[4] == '.';
      assert s[|s| - 1] == p.mm[|p.mm| - 1];
    }
  }

  /** An ISO-style date is not in the format and is refused. */
  lemma RejectDashedDate(s: string)
    requires s == "2023-08-15 14:30"
    ensures ParseBlogDate(s) == None
  {
    AcceptedShape(s);
    assert s[4] == '-';
  }

  /** Text after the minutes is refused. */
  lemma RejectTrailingText(s: string)
    requires s == "2023. 8. 5. 9:07x"
    ensures ParseBlogDate(s) == None
  {
    AcceptedShape(s);
    assert s[|s| - 1] == 'x';
  }

  lemma YearDigits()
    ensures |"2023"| == 4 && AllDigits("2023") && ParseNat("2023") == 2023
  {
    assert "2023"[..3] == "202";
    assert "202"[..2] == "20";
    assert "20"[..1] == "2";
  }

  lemma ExampleFields()
    ensures FieldIn("08", 1, 12) && ParseNat("08") == 8 && FieldIn("15", 1, 31) && ParseNat("15") == 15
    ensures FieldIn("14", 0, 23) && ParseNat("14") == 14 && FieldIn("30", 0, 59) && ParseNat("30") == 30
    ensures Gap(" ")
  {
  }

  /** The date text of the design example is read as 15 August 2023, 14:30. */
  lemma ParseExampleDate(s: string)
    requires s == "2023. 08. 15. 14:30"
    ensures ParseBlogDate(s) == Some(DateTime(2023, 8, 15, 14, 30))
  {
    var p := DateText("2023", " ", "08", " ", "15", " ", "14", "30");
    assert s == Written(p);
    YearDigits();
    ExampleFields();
    ParseBlogDatePieces(p);
  }

  lemma ImpossibleFields()
    ensures FieldIn("02", 1, 12) && ParseNat("02") == 2 && FieldIn("30", 1, 31) && ParseNat("30") == 30
    ensures FieldIn("10", 0, 23) && ParseNat("10") == 10 && FieldIn("00", 0, 59) && ParseNat("00") == 0
    ensures Gap(" ")
  {
  }

  /** There is no 30 February: a well-formed text that is not a calendar date is refused. */
  lemma RejectImpossibleDate(s: string)
    requires s == "2023. 02. 30. 10:00"
    ensures ParseBlogDate(s) == None
  {
    var p := DateText("2023", " ", "02", " ", "30", " ", "10", "00");
    assert s == Written(p);
    YearDigits();
    ImpossibleFields();
    ParseBlogDatePieces(p);
  }

  lemma LenientFields()
    ensures FieldIn("8", 1, 12) && ParseNat("8") == 8 && FieldIn("5", 1, 31) && ParseNat("5") == 5
    ensures FieldIn("9", 0, 23) && ParseNat("9") == 9 && FieldIn("07", 0, 59) && ParseNat("07") == 7
    ensures Gap(" ") && Gap("  ")
  {
  }

  /** `strptime` is lenient: one-digit fields and runs of whitespace are accepted. */
  lemma ParseLenientDate(s: string)
    requires s == "2023.  8. 5. 9:07"
    ensures ParseBlogDate(s) == Some(DateTime(2023, 8, 5, 9, 7))
  {
    var p := DateText("2023", "  ", "8", " ", "5", " ", "9", "07");
    assert s == Written(p);
    YearDigits();
    LenientFields();
    ParseBlogDatePieces(p);
  }
}
