/**
 * Zone-less calendar moments and their ISO 8601 text, as far as the codec
 * and the drag logic use luxon: a calendar date in extended format
 * (ISO 8601:2004 section 4.1.2.2), optionally followed by `T` and `hh:mm`.
 * Time zones, offsets, seconds and milliseconds are not modelled.
 */
module IsoTime {
  import opened Text

  datatype Date = Date(year: int, month: int, day: int)

  predicate IsLeapYear(y: int)
  {
    y % 4 == 0 && (y % 100 != 0 || y % 400 == 0)
  }

  function DaysInMonth(y: int, m: int): (r: int)
    requires 1 <= m <= 12
    ensures 28 <= r <= 31
  {
    if m == 2 then (if IsLeapYear(y) then 29 else 28)
    else if m == 4 || m == 6 || m == 9 || m == 11 then 30
    else 31
  }

  predicate ValidDate(d: Date)
  {
    1 <= d.month <= 12 && 1 <= d.day <= DaysInMonth(d.year, d.month)
  }

  function NextDay(d: Date): (r: Date)
    requires ValidDate(d)
    ensures ValidDate(r)
  {
    if d.day < DaysInMonth(d.year, d.month) then d.(day := d.day + 1)
    else if d.month < 12 then Date(d.year, d.month + 1, 1)
    else Date(d.year + 1, 1, 1)
  }

  function PrevDay(d: Date): (r: Date)
    requires ValidDate(d)
    ensures ValidDate(r)
  {
    if d.day > 1 then d.(day := d.day - 1)
    else if d.month > 1 then Date(d.year, d.month - 1, DaysInMonth(d.year, d.month - 1))
    else Date(d.year - 1, 12, 31)
  }

  lemma DayStepsInverse(d: Date)
    requires ValidDate(d)
    ensures PrevDay(NextDay(d)) == d && NextDay(PrevDay(d)) == d
  {
  }

  /** The date `k` days after `d` (before it, for negative `k`). */
  function AddDays(d: Date, k: int): (r: Date)
    requires ValidDate(d)
    ensures ValidDate(r)
    decreases if k >= 0 then k else -k
  {
    if k == 0 then d
    else if k > 0 then AddDays(NextDay(d), k - 1)
    else AddDays(PrevDay(d), k + 1)
  }

  /** A zone-less luxon DateTime: a calendar date and a minute of that day. */
  datatype Moment = Moment(date: Date, minute: int)

  predicate ValidMoment(m: Moment)
  {
    ValidDate(m.date) && 0 <= m.minute < 1440
  }

  /** luxon `plus({ minutes: k })`: minutes past the end of the day roll
      into the following days, negative ones into the preceding days. */
  function PlusMinutes(m: Moment, k: int): (r: Moment)
    requires ValidMoment(m)
    ensures ValidMoment(r)
  {
    var total := m.minute + k;
    Moment(AddDays(m.date, total / 1440), total % 1440)
  }

  /** The minute of day after `plus` is the sum taken modulo a day. */
  lemma PlusMinutesMinute(m: Moment, k: int)
    requires ValidMoment(m)
    ensures PlusMinutes(m, k).minute == (m.minute + k) % 1440
  {
  }

  /** luxon `set({ hour, minute })`: the given time of the same day, with
      out-of-range values rolling over as `plus` does. */
  function SetTime(m: Moment, hour: int, minute: int): (r: Moment)
    requires ValidMoment(m)
    ensures ValidMoment(r)
  {
    PlusMinutes(Moment(m.date, 0), hour * 60 + minute)
  }

  /** An in-range time of day lands on the same day. */
  lemma SetTimeSameDay(m: Moment, hour: int, minute: int)
    requires ValidMoment(m)
    requires 0 <= hour < 24 && 0 <= minute < 60
    ensures SetTime(m, hour, minute) == Moment(m.date, hour * 60 + minute)
  {
  }

  /** luxon `Duration.shiftTo('hours', 'minutes')` of a whole number of
      minutes: both parts carry the sign of the total, so the hours are the
      quotient truncated toward zero and the minutes the remainder. */
  function ShiftTo(total: int): (r: (int, int))
    ensures r.0 * 60 + r.1 == total
    ensures -60 < r.1 < 60
    ensures (r.0 >= 0 && r.1 >= 0) <==> total >= 0
  {
    if total >= 0 then (total / 60, total % 60)
    else (-((-total) / 60), -((-total) % 60))
  }

  /** The four-digit year of `toISODate`, or the signed six-digit form
      luxon uses outside 0..9999. */
  function YearText(y: int): string
  {
    if 0 <= y <= 9999 then Padded(y, 4)
    else if y > 9999 then "+" + Padded(y, 6)
    else "-" + Padded(-y, 6)
  }

  /** `toISODate()`: `YYYY-MM-DD`. */
  function DateText(d: Date): string
    requires ValidDate(d)
  {
    YearText(d.year) + "-" + Padded(d.month, 2) + "-" + Padded(d.day, 2)
  }

  /** `hh:mm` of a minute of the day. */
  function TimeText(minute: int): string
    requires 0 <= minute < 1440
  {
    Padded(minute / 60, 2) + ":" + Padded(minute % 60, 2)
  }

  /** `toISO({ includeOffset: false, suppressMilliseconds: true,
      suppressSeconds: true })`: `YYYY-MM-DDThh:mm`. */
  function DateTimeText(m: Moment): string
    requires ValidMoment(m)
  {
    DateText(m.date) + "T" + TimeText(m.minute)
  }

  /** The date-only alternative of `ISO_MATCH`: `\d{4}-\d{2}-\d{2}`. */
  predicate DateForm(s: string)
  {
    |s| == 10 && AllDigits(s[0..4]) && s[4] == '-' && AllDigits(s[5..7])
    && s[7] == '-' && AllDigits(s[8..10])
  }

  /** The date-and-time alternative of `ISO_MATCH`: `\d{4}-\d{2}-\d{2}T\d{2}:\d{2}`. */
  predicate DateTimeForm(s: string)
  {
    |s| == 16 && DateForm(s[..10]) && s[10] == 'T' && AllDigits(s[11..13])
    && s[13] == ':' && AllDigits(s[14..16])
  }

  /** `isDateISO`: the date-only form. */
  predicate IsDateIso(s: string)
  {
    DateForm(s)
  }

  function DateOfForm(s: string): Date
    requires DateForm(s)
  {
    Date(DigitsValue(s[0..4]), DigitsValue(s[5..7]), DigitsValue(s[8..10]))
  }

  /** `DateTime.fromISO` on the two `ISO_MATCH` forms: `None` stands for an
      invalid DateTime (an impossible calendar date or time of day, or text
      of neither form). */
  function FromIso(s: string): (r: Option<Moment>)
    ensures r.Some? ==> ValidMoment(r.value)
    ensures r.Some? ==> DateForm(s) || DateTimeForm(s)
    ensures r.Some? && DateForm(s) ==> r.value.minute == 0
  {
    if DateForm(s) then
      var d := DateOfForm(s);
      if ValidDate(d) then Some(Moment(d, 0)) else None
    else if DateTimeForm(s) then
      var d := DateOfForm(s[..10]);
      var h := DigitsValue(s[11..13]);
      var mi := DigitsValue(s[14..16]);
      if ValidDate(d) && h < 24 && mi < 60 then Some(Moment(d, h * 60 + mi)) else None
    else None
  }

  lemma TwoDigits(n: nat)
    requires n < 100
    ensures |Padded(n, 2)| == 2 && DigitsValue(Padded(n, 2)) == n
  {
    assert Pow10(2) == 100;
    PaddedWidth(n, 2);
    PaddedValue(n, 2);
  }

  lemma YearDigits(y: int)
    requires 0 <= y <= 9999
    ensures |YearText(y)| == 4 && AllDigits(YearText(y)) && DigitsValue(YearText(y)) == y
  {
    assert Pow10(4) == 10000 by {
      assert Pow10(2) == 100;
    }
    PaddedWidth(y, 4);
    PaddedValue(y, 4);
  }

  /** A date printed by `toISODate` has the date-only form and parses back
      to midnight of that date. */
  lemma DateTextParses(d: Date)
    requires ValidDate(d) && 0 <= d.year <= 9999
    ensures DateForm(DateText(d))
    ensures FromIso(DateText(d)) == Some(Moment(d, 0))
  {
    DateTextForm(d);
  }

  /** A printed date has the date-only form and its fields read back. */
  lemma DateTextForm(d: Date)
    requires ValidDate(d) && 0 <= d.year <= 9999
    ensures DateForm(DateText(d)) && DateOfForm(DateText(d)) == d
  {
    var s := DateText(d);
    YearDigits(d.year);
    TwoDigits(d.month);
    TwoDigits(d.day);
    assert s[0..4] == YearText(d.year);
    assert s[5..7] == Padded(d.month, 2);
    assert s[8..10] == Padded(d.day, 2);
  }

  /** A moment printed with its time has the date-and-time form and parses
      back to itself. */
  lemma DateTimeTextParses(m: Moment)
    requires ValidMoment(m) && 0 <= m.date.year <= 9999
    ensures DateTimeForm(DateTimeText(m))
    ensures FromIso(DateTimeText(m)) == Some(m)
  {
    DateTextForm(m.date);
    MinuteOfDay(m.minute);
    TwoDigits(m.minute / 60);
    TwoDigits(m.minute % 60);
    DateTimeTextPieces(m);
    TimedFormShape(DateTimeText(m), DateText(m.date), Padded(m.minute / 60, 2), Padded(m.minute % 60, 2));
    TimedFormParses(DateTimeText(m), m);
  }

  /** A minute of the day splits into an hour below 24 and a minute below 60. */
  lemma MinuteOfDay(k: int)
    requires 0 <= k < 1440
    ensures 0 <= k / 60 < 24 && 0 <= k % 60 < 60 && k / 60 * 60 + k % 60 == k
  {
  }

  lemma DateTimeTextPieces(m: Moment)
    requires ValidMoment(m)
    ensures DateTimeText(m) == DateText(m.date) + "T" + Padded(m.minute / 60, 2) + ":" + Padded(m.minute % 60, 2)
  {
  }

  /** A date, a `T`, two hour digits, a `:` and two minute digits have the
      date-and-time form, with those pieces at their places. */
  lemma TimedFormShape(s: string, date: string, hh: string, mm: string)
    requires s == date + "T" + hh + ":" + mm
    requires DateForm(date) && |hh| == 2 && AllDigits(hh) && |mm| == 2 && AllDigits(mm)
    ensures DateTimeForm(s) && s[..10] == date && s[11..13] == hh && s[14..16] == mm
  {
    assert s[..10] == date;
    assert s[11..13] == hh;
    assert s[14..16] == mm;
  }

  /** Text of the date-and-time form whose pieces denote a valid date, an
      hour below 24 and a minute below 60 parses to that moment. */
  lemma TimedFormParses(s: string, m: Moment)
    requires DateTimeForm(s) && DateOfForm(s[..10]) == m.date && ValidDate(m.date)
    requires DigitsValue(s[11..13]) < 24 && DigitsValue(s[14..16]) < 60
    requires DigitsValue(s[11..13]) * 60 + DigitsValue(s[14..16]) == m.minute
    ensures FromIso(s) == Some(m)
  {
    assert !DateForm(s);
  }

  /** Conversely, text of the date-only form that luxon accepts is exactly
      what `toISODate` prints for the parsed date. */
  lemma DateFormPrints(s: string)
    requires DateForm(s) && FromIso(s).Some?
    ensures DateText(FromIso(s).value.date) == s
  {
    assert FromIso(s).value.date == DateOfForm(s);
    DateOfFormPrints(s);
  }

  /** The fields of a date-only text that form a valid date print back as
      that text. */
  lemma DateOfFormPrints(s: string)
    requires DateForm(s) && ValidDate(DateOfForm(s))
    ensures DateText(DateOfForm(s)) == s
  {
    var d := DateOfForm(s);
    DigitsValueBound(s[0..4]);
    assert Pow10(4) == 10000 by {
      assert Pow10(2) == 100;
    }
    PaddedDigits(s[0..4]);
    PaddedDigits(s[5..7]);
    PaddedDigits(s[8..10]);
    assert YearText(d.year) == s[0..4];
    assert s == s[0..4] + "-" + s[5..7] + "-" + s[8..10];
  }

  /** And text of the date-and-time form that luxon accepts is exactly what
      `toISO` prints for the parsed moment. */
  lemma DateTimeFormPrints(s: string)
    requires DateTimeForm(s) && FromIso(s).Some?
    ensures DateTimeText(FromIso(s).value) == s
  {
    TimedFormValue(s);
    TimedTextPrints(s, FromIso(s).value);
  }

  /** What `FromIso` accepts of the date-and-time form, and the moment it
      reads. */
  lemma TimedFormValue(s: string)
    requires DateTimeForm(s) && FromIso(s).Some?
    ensures ValidDate(DateOfForm(s[..10])) && DigitsValue(s[11..13]) < 24 && DigitsValue(s[14..16]) < 60
    ensures FromIso(s).value == Moment(DateOfForm(s[..10]), DigitsValue(s[11..13]) * 60 + DigitsValue(s[14..16]))
  {
    assert !DateForm(s);
  }

  /** The moment denoted by the pieces of a date-and-time text prints back
      as that text. */
  lemma TimedTextPrints(s: string, m: Moment)
    requires DateTimeForm(s) && ValidDate(DateOfForm(s[..10]))
    requires DigitsValue(s[11..13]) < 24 && DigitsValue(s[14..16]) < 60
    requires m == Moment(DateOfForm(s[..10]), DigitsValue(s[11..13]) * 60 + DigitsValue(s[14..16]))
    ensures ValidMoment(m) && DateTimeText(m) == s
  {
    assert m.minute / 60 == DigitsValue(s[11..13]) && m.minute % 60 == DigitsValue(s[14..16]);
    DateOfFormPrints(s[..10]);
    PaddedDigits(s[11..13]);
    PaddedDigits(s[14..16]);
    DateTimeTextPieces(m);
    DateTimePieces(s);
  }

  lemma DateTimePieces(s: string)
    requires |s| == 16 && s[10] == 'T' && s[13] == ':'
    ensures s == s[..10] + "T" + s[11..13] + ":" + s[14..16]
  {
  }
}
