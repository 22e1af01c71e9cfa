/**
 * The whole record read back: `textToTask` applied to the item Dataview
 * hands over for the line `taskToText` wrote. Dataview's own parsing of the
 * line is a hypothesis on the item's fields, stated as what was written.
 */
module RecordRoundTrip {
  import opened Text
  import opened IsoTime
  import opened Enums
  import opened TaskRecord
  import opened TaskParse
  import opened TaskText
  import opened RoundTrip

  /** The `priority` value Dataview reports for the written line: the
      keyword of a `[priority:: …]` field, and nothing for the Tasks
      dialect or when no priority was written. */
  function PriorityRead(t: Task, d: Dialect): PriorityValue
  {
    if d != TasksPlugin && PriorityTextAsWritten(t.priority, d) != "" then
      KeyPriority(OrUndefined(PriorityKey(t.priority)))
    else NoPriority
  }

  /** The `length` Dataview reports: the written `[length:: …]` duration, in
      the dialects that write one. */
  function LengthRead(t: Task, d: Dialect): Option<Length>
  {
    if d != FullCalendar && HasLength(t) then t.length else None
  }

  /** The `endTime` Dataview reports: the written `[endTime:: …]` text, in
      the full-calendar dialect. */
  function EndTimeRead(t: Task, d: Dialect): string
    requires t.scheduled.Some?
  {
    if d == FullCalendar && HasLength(t) then EndTimeText(t.scheduled.value, t.length.value) else ""
  }

  /** The item Dataview hands over for the line `taskToText` wrote for `t` in
      dialect `d`: its text is that line, and the fields it parses from the
      line hold what was written there. */
  predicate ReadsLine(item: RawItem, t: Task, d: Dialect)
    requires t.scheduled.Some?
  {
    var s := t.scheduled.value;
    && item.text == TaskLineAsWritten(t, d)
    && item.priority == PriorityRead(t, d)
    && item.length == LengthRead(t, d)
    && item.endTime == EndTimeRead(t, d)
    && DateFieldRead(item.due, t.due, d) && DateFieldRead(item.start, t.start, d)
    && DateFieldRead(item.created, t.created, d) && DateFieldRead(item.completion, t.completion, d)
    && match d
       case Dataview => item.scheduled == FromIso(s) && item.startTime == ""
       case FullCalendar => item.scheduled.None? && item.date == Head10(s) && item.startTime == StartTimeValue(t)
       case TasksPlugin => item.scheduled == FromIso(Head10(s)) && item.startTime == StartTimeValue(t)
  }

  /** The two keyword dialects write no priority marker around the priority
      part. */
  lemma KeywordLineFree(t: Task, d: Dialect)
    requires PlainTask(t) && d != TasksPlugin
    ensures MarkerFree(BeforePriority(t, d)) && MarkerFree(CompletionMark(t, d))
  {
    HeadFree(t);
    SortedFieldsFree(t);
    KeywordDatesFree(t, d);
    KeywordMarksFree(t, d);
    ConcatFree(HeadText(t), FieldsText(SortedFields(t)));
    ConcatFree(HeadText(t) + FieldsText(SortedFields(t)), DatesText(t, d));
    ConcatFree(HeadText(t) + FieldsText(SortedFields(t)) + DatesText(t, d), StartMark(t, d));
    ConcatFree(HeadText(t) + FieldsText(SortedFields(t)) + DatesText(t, d) + StartMark(t, d), CreatedMark(t, d));
  }

  lemma KeywordMarksFree(t: Task, d: Dialect)
    requires PlainTask(t) && d != TasksPlugin
    ensures MarkerFree(StartMark(t, d)) && MarkerFree(CreatedMark(t, d)) && MarkerFree(CompletionMark(t, d))
  {
    if Present(t.start) {
      SpacedFieldFree("start", t.start.value);
    }
    if Present(t.created) {
      SpacedFieldFree("created", t.created.value);
    }
    if Present(t.completion) {
      SpacedFieldFree("completion", t.completion.value);
    }
  }

  /** A `[key:: value]` field, led by two spaces, of marker-free parts. */
  lemma SpacedFieldFree(k: string, v: string)
    requires MarkerFree(k) && MarkerFree(v)
    ensures MarkerFree("  " + FieldText(k, v))
  {
  }

  lemma KeywordDatesFree(t: Task, d: Dialect)
    requires PlainTask(t) && d != TasksPlugin
    ensures MarkerFree(DatesText(t, d))
  {
    DueFieldFree(t);
    if d == Dataview {
      LengthFieldFree(t);
      ScheduledFieldFree(t);
      ConcatFree(ScheduledField(t), DueField(t));
      ConcatFree(ScheduledField(t) + DueField(t), LengthField(t));
    } else {
      DateFieldsFree(t);
      EndTimeFieldFree(t);
      ConcatFree(DateFields(t), DueField(t));
      ConcatFree(DateFields(t) + DueField(t), EndTimeField(t));
    }
  }

  lemma ScheduledFieldFree(t: Task)
    requires PlainTask(t)
    ensures MarkerFree(ScheduledField(t))
  {
    if Present(t.scheduled) {
      SpacedFieldFree("scheduled", t.scheduled.value);
    }
  }

  lemma DueFieldFree(t: Task)
    requires PlainTask(t)
    ensures MarkerFree(DueField(t))
  {
    if Present(t.due) {
      SpacedFieldFree("due", t.due.value);
    }
  }

  lemma DateFieldsFree(t: Task)
    requires PlainTask(t)
    ensures MarkerFree(DateFields(t))
  {
    if t.scheduled.Some? {
      OptionSlicesFree(t.scheduled);
      assert MarkerFree(StartTimeField(t));
    }
  }

  lemma EndTimeFieldFree(t: Task)
    ensures MarkerFree(EndTimeField(t))
  {
    if HasLength(t) && Present(t.scheduled) {
      var e := EndTimeText(t.scheduled.value, t.length.value);
      assert MarkerFree(e) by {
        if FromIso(t.scheduled.value).Some? {
          var m := PlusMinutes(FromIso(t.scheduled.value).value, Minutes(t.length.value));
          IntTextFree(m.minute / 60);
          IntTextFree(m.minute % 60);
          assert e == IntText(m.minute / 60) + ":" + IntText(m.minute % 60);
        }
      }
    }
  }

  /** The priority read back from the written line: every priority but
      HIGHEST, which the source's guard drops and which then reads as
      DEFAULT. */
  lemma PriorityReadsBack(t: Task, d: Dialect, item: RawItem)
    requires PlainTask(t) && Highest <= t.priority <= Lowest
    requires item.text == TaskLineAsWritten(t, d) && item.priority == PriorityRead(t, d)
    ensures PriorityOf(item.priority, item.text) == (if t.priority == Highest then Default else t.priority)
  {
    LineAroundPriority(t, d);
    if d == TasksPlugin {
      TasksPriorityReadsBack(t, item.text);
    } else if PriorityTextAsWritten(t.priority, d) != "" {
      KeywordPriorityRoundTrip(t.priority, item.text);
    } else {
      UnwrittenPriorityReadsBack(t, d, item.text);
    }
  }

  lemma TasksPriorityReadsBack(t: Task, text: string)
    requires PlainTask(t) && Highest <= t.priority <= Lowest
    requires text == BeforePriority(t, TasksPlugin) + PriorityTextAsWritten(t.priority, TasksPlugin)
                     + CompletionMark(t, TasksPlugin)
    ensures PriorityOf(NoPriority, text) == (if t.priority == Highest then Default else t.priority)
  {
    TasksLineFree(t);
    var p := if t.priority == Highest then Default else t.priority;
    assert PriorityTextAsWritten(t.priority, TasksPlugin) == PriorityText(p, TasksPlugin);
    MarkerReadsBack(BeforePriority(t, TasksPlugin), p, CompletionMark(t, TasksPlugin));
  }

  lemma UnwrittenPriorityReadsBack(t: Task, d: Dialect, text: string)
    requires PlainTask(t) && d != TasksPlugin && PriorityTextAsWritten(t.priority, d) == ""
    requires text == BeforePriority(t, d) + PriorityTextAsWritten(t.priority, d) + CompletionMark(t, d)
    ensures PriorityOf(NoPriority, text) == Default
  {
    KeywordLineFree(t, d);
    NoMarkerDefault(BeforePriority(t, d), PriorityTextAsWritten(t.priority, d), CompletionMark(t, d));
  }

  /** With no priority value and no marker in the text, the priority is
      DEFAULT. */
  lemma NoMarkerDefault(a: string, m: string, b: string)
    requires MarkerFree(a) && m == "" && MarkerFree(b)
    ensures PriorityOf(NoPriority, a + m + b) == Default
  {
    assert a + m + b == a + b;
    ConcatFree(a, b);
  }

  /** The length read back from the written line: the written length in the
      dialects with a `[length:: …]` field, and the length of the same total
      from the `endTime` in the full-calendar dialect when the task ends on
      the day it starts. A zero length is not written and reads back as
      none. */
  lemma LengthReadsBack(t: Task, d: Dialect, item: RawItem)
    requires ScheduledIso(t)
    requires t.length.Some? ==> t.length.value.hour >= 0 && t.length.value.minute >= 0
    requires item.length == LengthRead(t, d) && item.endTime == EndTimeRead(t, d)
    ensures !HasLength(t) ==> ParseLength(item, t.scheduled).None?
    ensures d != FullCalendar ==> ParseLength(item, t.scheduled) == (if HasLength(t) then t.length else None)
    ensures d == FullCalendar && HasLength(t) ==>
      var total := Minutes(t.length.value);
      FromIso(t.scheduled.value).value.minute + total < 1440 ==>
        ParseLength(item, t.scheduled) == Some(Length(total / 60, total % 60))
  {
    if d == FullCalendar {
      CalendarLengthReadsBack(t, item);
    } else {
      FieldLengthReadsBack(t, d, item);
    }
  }

  lemma FieldLengthReadsBack(t: Task, d: Dialect, item: RawItem)
    requires t.scheduled.Some? && d != FullCalendar
    requires item.length == LengthRead(t, d) && item.endTime == EndTimeRead(t, d)
    ensures ParseLength(item, t.scheduled) == (if HasLength(t) then t.length else None)
  {
    assert item.endTime == "";
  }

  lemma CalendarLengthReadsBack(t: Task, item: RawItem)
    requires ScheduledIso(t)
    requires t.length.Some? ==> t.length.value.hour >= 0 && t.length.value.minute >= 0
    requires item.length == LengthRead(t, FullCalendar) && item.endTime == EndTimeRead(t, FullCalendar)
    ensures !HasLength(t) ==> ParseLength(item, t.scheduled).None?
    ensures HasLength(t) ==>
      var total := Minutes(t.length.value);
      FromIso(t.scheduled.value).value.minute + total < 1440 ==>
        ParseLength(item, t.scheduled) == Some(Length(total / 60, total % 60))
  {
    if HasLength(t) {
      EndTimeRoundTrip(item, t.scheduled.value, t.length.value);
    } else {
      assert item.endTime == "";
    }
  }

  // ---- the date keys ----

  /** A date key as the written line keeps it: a present date, else none. */
  function Written(o: Option<string>): Option<string>
  {
    if Present(o) then o else None
  }

  /** The DateTime Dataview reports for a written date. */
  function DateRead(o: Option<string>): Option<Moment>
  {
    if Present(o) then FromIso(o.value) else None
  }

  /** The date field Dataview reports for a key: the written date, or, in
      the Tasks dialect, possibly nothing, which sends `parseDateKey` to the
      text. */
  predicate DateFieldRead(field: Option<Moment>, o: Option<string>, d: Dialect)
  {
    field == DateRead(o) || (d == TasksPlugin && field.None?)
  }

  /** A present date is a date alone that luxon accepts: `parseDateKey`
      gives back dates without a time. */
  predicate IsoDate(o: Option<string>)
  {
    Present(o) ==> DateForm(o.value) && FromIso(o.value).Some?
  }

  predicate DatesIso(t: Task)
  {
    IsoDate(t.due) && IsoDate(t.start) && IsoDate(t.created) && IsoDate(t.completion)
  }

  /** The Tasks markers of the four date keys. */
  predicate DateMark(e: char)
  {
    e == DueEmoji || e == StartEmoji || e == CreatedEmoji || e == CompletionEmoji
  }

  /** The title, tags and extra fields hold no `e`. */
  predicate Lacks(t: Task, e: char)
  {
    && e !in t.title
    && (forall k :: 0 <= k < |t.tags| ==> e !in t.tags[k])
    && (forall f :: f in t.extraFields ==> e !in f.0 && e !in f.1)
  }

  /** A task whose own texts hold no date marker. */
  predicate DateQuiet(t: Task)
  {
    Lacks(t, DueEmoji) && Lacks(t, StartEmoji) && Lacks(t, CreatedEmoji) && Lacks(t, CompletionEmoji)
  }

  /** The Tasks-dialect text of a date key: a space, the marker, a space and
      the date, or nothing when the date is absent. */
  function MarkedText(e: char, o: Option<string>): string
  {
    if Present(o) then " " + [e] + " " + o.value else ""
  }

  /** Everything the Tasks dialect writes before the due date. */
  function TasksOpening(t: Task): string
  {
    HeadText(t) + FieldsText(SortedFields(t)) + LengthField(t) + ScheduledMarker(t)
  }

  /** The Tasks-dialect line, cut at its four date keys. */
  lemma TasksLineCut(t: Task)
    ensures TaskLineAsWritten(t, TasksPlugin) ==
      TasksOpening(t) + MarkedText(DueEmoji, t.due) + MarkedText(StartEmoji, t.start)
      + MarkedText(CreatedEmoji, t.created) + PriorityTextAsWritten(t.priority, TasksPlugin)
      + MarkedText(CompletionEmoji, t.completion)
  {
    TasksMarksShape(t);
    CutRegroup(HeadText(t) + FieldsText(SortedFields(t)), LengthField(t), ScheduledMarker(t),
               MarkedText(DueEmoji, t.due), MarkedText(StartEmoji, t.start), MarkedText(CreatedEmoji, t.created),
               PriorityTextAsWritten(t.priority, TasksPlugin), MarkedText(CompletionEmoji, t.completion));
  }

  lemma TasksMarksShape(t: Task)
    ensures DatesText(t, TasksPlugin) == LengthField(t) + ScheduledMarker(t) + MarkedText(DueEmoji, t.due)
    ensures StartMark(t, TasksPlugin) == MarkedText(StartEmoji, t.start)
    ensures CreatedMark(t, TasksPlugin) == MarkedText(CreatedEmoji, t.created)
    ensures CompletionMark(t, TasksPlugin) == MarkedText(CompletionEmoji, t.completion)
  {
  }

  lemma CutRegroup(h: string, l: string, sm: string, du: string, st: string, cr: string, p: string, co: string)
    ensures h + (l + sm + du) + (st + cr + p + co) == h + l + sm + du + st + cr + p + co
  {
  }

  lemma IsoLacks(s: string, e: char)
    requires (DateForm(s) || DateTimeForm(s)) && DateMark(e)
    ensures e !in s
  {
    forall k | 0 <= k < |s|
      ensures s[k] != e
    {
      IsoCharsPlain(s, k);
    }
  }

  lemma SliceLacks(s: string, i: nat, j: nat, e: char)
    requires e !in s && i <= j <= |s|
    ensures e !in s[i..j]
  {
    forall k | 0 <= k < j - i
      ensures s[i..j][k] != e
    {
      assert s[i..j][k] == s[i + k];
    }
  }

  lemma IntTextLacks(n: int, e: char)
    requires DateMark(e)
    ensures e !in IntText(n)
  {
    var digits := NatText(if n < 0 then -n else n);
    assert forall k :: 0 <= k < |digits| ==> IsDigit(digits[k]);
  }

  lemma {:induction false} JoinLacks(parts: seq<string>, sep: string, e: char)
    requires e !in sep
    requires forall k :: 0 <= k < |parts| ==> e !in parts[k]
    ensures e !in Join(parts, sep)
    decreases |parts|
  {
    if |parts| > 1 {
      JoinLacks(parts[1..], sep, e);
    }
  }

  lemma {:induction false} FieldsLacks(fs: seq<(string, string)>, e: char)
    requires DateMark(e)
    requires forall k :: 0 <= k < |fs| ==> e !in fs[k].0 && e !in fs[k].1
    ensures e !in FieldsText(fs)
    decreases |fs|
  {
    if fs != [] {
      FieldsLacks(fs[..|fs| - 1], e);
    }
  }

  /** The checkbox, title, tags and sorted extra fields hold no `e`. */
  lemma OpeningLacks(t: Task, e: char)
    requires Lacks(t, e) && DateMark(e)
    ensures e !in HeadText(t) + FieldsText(SortedFields(t))
  {
    HeadLacks(t, e);
    SortedFieldsLacks(t, e);
  }

  lemma HeadLacks(t: Task, e: char)
    requires Lacks(t, e) && DateMark(e)
    ensures e !in HeadText(t)
  {
    SliceLacks(t.title, 0, |TrimEnd(t.title)|, e);
    JoinLacks(t.tags, " ", e);
  }

  lemma SortedFieldsLacks(t: Task, e: char)
    requires Lacks(t, e) && DateMark(e)
    ensures e !in FieldsText(SortedFields(t))
  {
    var fs := SortedFields(t);
    FieldsSortedByKey(t);
    forall k | 0 <= k < |fs|
      ensures e !in fs[k].0 && e !in fs[k].1
    {
      assert fs[k] in multiset(fs);
    }
    FieldsLacks(fs, e);
  }

  /** Two spaces and a `[key:: value]` field whose parts hold no `e`. */
  lemma SpacedFieldLacks(k: string, v: string, e: char)
    requires DateMark(e) && e !in k && e !in v
    ensures e !in "  " + FieldText(k, v)
  {
  }

  /** The first ten and the twelfth-onwards characters of the scheduled
      value hold no date marker. */
  lemma ScheduledPartsLack(t: Task, e: char)
    requires ScheduledIso(t) && DateMark(e)
    ensures e !in Head10(t.scheduled.value) && e !in From11(t.scheduled.value)
  {
    var s := t.scheduled.value;
    IsoLacks(s, e);
    if |s| > 10 {
      SliceLacks(s, 0, 10, e);
    }
    if |s| > 11 {
      SliceLacks(s, 11, |s|, e);
    }
  }

  lemma LengthFieldLacks(t: Task, e: char)
    requires DateMark(e)
    ensures e !in LengthField(t)
  {
    if HasLength(t) {
      IntTextLacks(t.length.value.hour, e);
      IntTextLacks(t.length.value.minute, e);
      SpacedFieldLacks("length", LengthText(t.length.value), e);
    }
  }

  lemma StartTimeFieldLacks(t: Task, e: char)
    requires ScheduledIso(t) && DateMark(e)
    ensures e !in StartTimeField(t)
  {
    ScheduledPartsLack(t, e);
    if Present(t.scheduled) && !IsDateIso(t.scheduled.value) {
      SpacedFieldLacks("startTime", From11(t.scheduled.value), e);
    }
  }

  /** The Tasks dialect writes no date marker before the due date. */
  lemma TasksOpeningLacks(t: Task, e: char)
    requires Lacks(t, e) && ScheduledIso(t) && DateMark(e)
    ensures e !in TasksOpening(t)
  {
    OpeningLacks(t, e);
    LengthFieldLacks(t, e);
    StartTimeFieldLacks(t, e);
    ScheduledPartsLack(t, e);
  }

  lemma MarkedTextLacks(e: char, m: char, o: Option<string>)
    requires DateMark(e) && e != m && IsoDate(o)
    ensures e !in MarkedText(m, o)
    ensures SpaceLed(MarkedText(m, o))
  {
    if Present(o) {
      IsoLacks(o.value, e);
    }
  }

  lemma PriorityLacks(p: int, d: Dialect, e: char)
    requires DateMark(e)
    ensures e !in PriorityTextAsWritten(p, d)
    ensures d == TasksPlugin ==> SpaceLed(PriorityTextAsWritten(p, d))
  {
    if p != 0 && p != Default {
      var key := PriorityKey(p);
      KeyLacks(p, e);
      if d != TasksPlugin {
        SpacedFieldLacks("priority", OrUndefined(key), e);
      } else {
        var emoji := if key.Some? then PriorityEmoji(key.value) else None;
        assert emoji.Some? ==> emoji.value in RankedEmoji;
        assert PriorityTextAsWritten(p, d) == " " + (if emoji.Some? then [emoji.value] else "undefined");
      }
    }
  }

  /** The priority keywords hold no date marker. */
  lemma KeyLacks(p: int, e: char)
    requires DateMark(e)
    ensures e !in OrUndefined(PriorityKey(p))
  {
    if p == Highest {
    } else if p == High {
    } else if p == Medium {
    } else if p == Default {
    } else if p == Low {
    } else if p == Lowest {
    }
  }

  /** The keyword dialects write no date marker in their date fields. */
  lemma KeywordDatesLacks(t: Task, d: Dialect, e: char)
    requires d != TasksPlugin && ScheduledIso(t) && DatesIso(t) && DateMark(e)
    ensures e !in DatesText(t, d)
  {
    LengthFieldLacks(t, e);
    ScheduledPartsLack(t, e);
    if Present(t.due) {
      IsoLacks(t.due.value, e);
      SpacedFieldLacks("due", t.due.value, e);
    }
    if d == Dataview {
      IsoLacks(t.scheduled.value, e);
      SpacedFieldLacks("scheduled", t.scheduled.value, e);
    } else {
      StartTimeFieldLacks(t, e);
      SpacedFieldLacks("date", Head10(t.scheduled.value), e);
      EndTimeFieldLacks(t, e);
    }
  }

  lemma EndTimeFieldLacks(t: Task, e: char)
    requires DateMark(e)
    ensures e !in EndTimeField(t)
  {
    if HasLength(t) && Present(t.scheduled) {
      var v := EndTimeText(t.scheduled.value, t.length.value);
      if FromIso(t.scheduled.value).Some? {
        var m := PlusMinutes(FromIso(t.scheduled.value).value, Minutes(t.length.value));
        IntTextLacks(m.minute / 60, e);
        IntTextLacks(m.minute % 60, e);
        assert v == IntText(m.minute / 60) + ":" + IntText(m.minute % 60);
      }
      SpacedFieldLacks("endTime", v, e);
    }
  }

  /** The keyword dialects write their start, created and completion dates
      as fields, with no date marker. */
  lemma KeywordMarksLacks(t: Task, d: Dialect, e: char)
    requires d != TasksPlugin && DatesIso(t) && DateMark(e)
    ensures e !in StartMark(t, d) + CreatedMark(t, d) + PriorityTextAsWritten(t.priority, d) + CompletionMark(t, d)
  {
    if Present(t.start) {
      IsoLacks(t.start.value, e);
      SpacedFieldLacks("start", t.start.value, e);
    }
    if Present(t.created) {
      IsoLacks(t.created.value, e);
      SpacedFieldLacks("created", t.created.value, e);
    }
    if Present(t.completion) {
      IsoLacks(t.completion.value, e);
      SpacedFieldLacks("completion", t.completion.value, e);
    }
    PriorityLacks(t.priority, d, e);
  }

  /** In the keyword dialects no date marker stands anywhere on the line. */
  lemma KeywordLineLacks(t: Task, d: Dialect, e: char)
    requires d != TasksPlugin && Lacks(t, e) && ScheduledIso(t) && DatesIso(t) && DateMark(e)
    ensures e !in TaskLineAsWritten(t, d)
  {
    OpeningLacks(t, e);
    KeywordDatesLacks(t, d, e);
    KeywordMarksLacks(t, d, e);
  }

  /** The Dataview field of a key gives its written date back; with no field
      and no marker on the line, the key reads back as none. */
  lemma FieldKeyReadsBack(o: Option<string>, text: string, e: char)
    requires IsoDate(o)
    requires !Present(o) ==> e !in text
    ensures ParseDateKey(DateRead(o), text, e) == Written(o)
  {
    if Present(o) {
      FieldDateReadsBack(o.value, text, e);
    } else {
      UnmarkedDateKey(text, e);
    }
  }

  /** A marked date between text without its marker and text that is empty
      or opens with a space reads back, from the field or from the text. */
  lemma MarkedKeyReadsBack(field: Option<Moment>, a: string, e: char, o: Option<string>, b: string)
    requires DateFieldRead(field, o, TasksPlugin) && IsoDate(o) && DateMark(e)
    requires e !in a && e !in b && SpaceLed(b)
    ensures ParseDateKey(field, a + MarkedText(e, o) + b, e) == Written(o)
  {
    if field.None? {
      if Present(o) {
        assert a + MarkedText(e, o) + b == (a + " ") + [e] + " " + o.value + b;
        MarkedDateKeyReadsBack(a + " ", e, o.value, b);
      } else {
        assert a + MarkedText(e, o) + b == a + b;
        UnmarkedDateKey(a + b, e);
      }
    } else {
      FieldKeyReadsBack(o, a + MarkedText(e, o) + b, e);
    }
  }

  /** The four date keys read back from the Tasks-dialect line. */
  lemma TasksDatesReadBack(t: Task, item: RawItem)
    requires DateQuiet(t) && ScheduledIso(t) && DatesIso(t)
    requires ValidItem(item) && item.text == TaskLineAsWritten(t, TasksPlugin)
    requires DateFieldRead(item.due, t.due, TasksPlugin) && DateFieldRead(item.start, t.start, TasksPlugin)
    requires DateFieldRead(item.created, t.created, TasksPlugin) && DateFieldRead(item.completion, t.completion, TasksPlugin)
    ensures ParseDateKey(item.due, item.text, DueEmoji) == Written(t.due)
    ensures ParseDateKey(item.start, item.text, StartEmoji) == Written(t.start)
    ensures ParseDateKey(item.created, item.text, CreatedEmoji) == Written(t.created)
    ensures ParseDateKey(item.completion, item.text, CompletionEmoji) == Written(t.completion)
  {
    TasksLineCut(t);
    var o := TasksOpening(t);
    var du, st := MarkedText(DueEmoji, t.due), MarkedText(StartEmoji, t.start);
    var cr, co := MarkedText(CreatedEmoji, t.created), MarkedText(CompletionEmoji, t.completion);
    var p := PriorityTextAsWritten(t.priority, TasksPlugin);
    TasksDueReadsBack(t, item.due, o, du, st, cr, p, co);
    TasksStartReadsBack(t, item.start, o, du, st, cr, p, co);
    TasksCreatedReadsBack(t, item.created, o, du, st, cr, p, co);
    TasksCompletionReadsBack(t, item.completion, o, du, st, cr, p, co);
  }

  lemma TasksDueReadsBack(t: Task, field: Option<Moment>, o: string, du: string, st: string, cr: string, p: string, co: string)
    requires DateQuiet(t) && ScheduledIso(t) && DatesIso(t) && DateFieldRead(field, t.due, TasksPlugin)
    requires o == TasksOpening(t) && du == MarkedText(DueEmoji, t.due) && st == MarkedText(StartEmoji, t.start)
    requires cr == MarkedText(CreatedEmoji, t.created) && co == MarkedText(CompletionEmoji, t.completion)
    requires p == PriorityTextAsWritten(t.priority, TasksPlugin)
    ensures ParseDateKey(field, o + du + st + cr + p + co, DueEmoji) == Written(t.due)
  {
    var e := DueEmoji;
    TasksOpeningLacks(t, e);
    MarkedTextLacks(e, StartEmoji, t.start);
    MarkedTextLacks(e, CreatedEmoji, t.created);
    MarkedTextLacks(e, CompletionEmoji, t.completion);
    PriorityLacks(t.priority, TasksPlugin, e);
    SpaceLedConcat(st, cr);
    SpaceLedConcat(st + cr, p);
    SpaceLedConcat(st + cr + p, co);
    CutAround(o, du, st, cr, p, co);
    MarkedKeyReadsBack(field, o, e, t.due, st + cr + p + co);
  }

  lemma TasksStartReadsBack(t: Task, field: Option<Moment>, o: string, du: string, st: string, cr: string, p: string, co: string)
    requires DateQuiet(t) && ScheduledIso(t) && DatesIso(t) && DateFieldRead(field, t.start, TasksPlugin)
    requires o == TasksOpening(t) && du == MarkedText(DueEmoji, t.due) && st == MarkedText(StartEmoji, t.start)
    requires cr == MarkedText(CreatedEmoji, t.created) && co == MarkedText(CompletionEmoji, t.completion)
    requires p == PriorityTextAsWritten(t.priority, TasksPlugin)
    ensures ParseDateKey(field, o + du + st + cr + p + co, StartEmoji) == Written(t.start)
  {
    var e := StartEmoji;
    TasksOpeningLacks(t, e);
    MarkedTextLacks(e, DueEmoji, t.due);
    MarkedTextLacks(e, CreatedEmoji, t.created);
    MarkedTextLacks(e, CompletionEmoji, t.completion);
    PriorityLacks(t.priority, TasksPlugin, e);
    SpaceLedConcat(cr, p);
    SpaceLedConcat(cr + p, co);
    CutAround(o, du, st, cr, p, co);
    MarkedKeyReadsBack(field, o + du, e, t.start, cr + p + co);
  }

  lemma TasksCreatedReadsBack(t: Task, field: Option<Moment>, o: string, du: string, st: string, cr: string, p: string, co: string)
    requires DateQuiet(t) && ScheduledIso(t) && DatesIso(t) && DateFieldRead(field, t.created, TasksPlugin)
    requires o == TasksOpening(t) && du == MarkedText(DueEmoji, t.due) && st == MarkedText(StartEmoji, t.start)
    requires cr == MarkedText(CreatedEmoji, t.created) && co == MarkedText(CompletionEmoji, t.completion)
    requires p == PriorityTextAsWritten(t.priority, TasksPlugin)
    ensures ParseDateKey(field, o + du + st + cr + p + co, CreatedEmoji) == Written(t.created)
  {
    var e := CreatedEmoji;
    TasksOpeningLacks(t, e);
    MarkedTextLacks(e, DueEmoji, t.due);
    MarkedTextLacks(e, StartEmoji, t.start);
    MarkedTextLacks(e, CompletionEmoji, t.completion);
    PriorityLacks(t.priority, TasksPlugin, e);
    SpaceLedConcat(p, co);
    CutAround(o, du, st, cr, p, co);
    MarkedKeyReadsBack(field, o + du + st, e, t.created, p + co);
  }

  lemma TasksCompletionReadsBack(t: Task, field: Option<Moment>, o: string, du: string, st: string, cr: string, p: string, co: string)
    requires DateQuiet(t) && ScheduledIso(t) && DatesIso(t) && DateFieldRead(field, t.completion, TasksPlugin)
    requires o == TasksOpening(t) && du == MarkedText(DueEmoji, t.due) && st == MarkedText(StartEmoji, t.start)
    requires cr == MarkedText(CreatedEmoji, t.created) && co == MarkedText(CompletionEmoji, t.completion)
    requires p == PriorityTextAsWritten(t.priority, TasksPlugin)
    ensures ParseDateKey(field, o + du + st + cr + p + co, CompletionEmoji) == Written(t.completion)
  {
    var e := CompletionEmoji;
    TasksOpeningLacks(t, e);
    MarkedTextLacks(e, DueEmoji, t.due);
    MarkedTextLacks(e, StartEmoji, t.start);
    MarkedTextLacks(e, CreatedEmoji, t.created);
    PriorityLacks(t.priority, TasksPlugin, e);
    CutAround(o, du, st, cr, p, co);
    MarkedKeyReadsBack(field, o + du + st + cr + p, e, t.completion, "");
  }

  /** The Tasks line regrouped around each of its four date keys. */
  lemma CutAround(o: string, du: string, st: string, cr: string, p: string, co: string)
    ensures o + du + st + cr + p + co == o + du + (st + cr + p + co)
    ensures o + du + st + cr + p + co == (o + du) + st + (cr + p + co)
    ensures o + du + st + cr + p + co == (o + du + st) + cr + (p + co)
    ensures o + du + st + cr + p + co == (o + du + st + cr + p) + co + ""
  {
  }

  /** The four date keys read back from a keyword-dialect line. */
  lemma KeywordDatesReadBack(t: Task, d: Dialect, item: RawItem)
    requires d != TasksPlugin && DateQuiet(t) && ScheduledIso(t) && DatesIso(t)
    requires ValidItem(item) && item.text == TaskLineAsWritten(t, d)
    requires DateFieldRead(item.due, t.due, d) && DateFieldRead(item.start, t.start, d)
    requires DateFieldRead(item.created, t.created, d) && DateFieldRead(item.completion, t.completion, d)
    ensures ParseDateKey(item.due, item.text, DueEmoji) == Written(t.due)
    ensures ParseDateKey(item.start, item.text, StartEmoji) == Written(t.start)
    ensures ParseDateKey(item.created, item.text, CreatedEmoji) == Written(t.created)
    ensures ParseDateKey(item.completion, item.text, CompletionEmoji) == Written(t.completion)
  {
    KeywordLineLacks(t, d, DueEmoji);
    KeywordLineLacks(t, d, StartEmoji);
    KeywordLineLacks(t, d, CreatedEmoji);
    KeywordLineLacks(t, d, CompletionEmoji);
    FieldKeyReadsBack(t.due, item.text, DueEmoji);
    FieldKeyReadsBack(t.start, item.text, StartEmoji);
    FieldKeyReadsBack(t.created, item.text, CreatedEmoji);
    FieldKeyReadsBack(t.completion, item.text, CompletionEmoji);
  }

  /** `parseDateKey` undoes the date parts of `taskToText`: each of due,
      start, created and completion reads back as written, in every
      dialect, whether Dataview reports the date or the text is searched. */
  lemma DatesReadBack(t: Task, d: Dialect, item: RawItem)
    requires DateQuiet(t) && ScheduledIso(t) && DatesIso(t)
    requires ValidItem(item) && item.text == TaskLineAsWritten(t, d)
    requires DateFieldRead(item.due, t.due, d) && DateFieldRead(item.start, t.start, d)
    requires DateFieldRead(item.created, t.created, d) && DateFieldRead(item.completion, t.completion, d)
    ensures ParseDateKey(item.due, item.text, DueEmoji) == Written(t.due)
    ensures ParseDateKey(item.start, item.text, StartEmoji) == Written(t.start)
    ensures ParseDateKey(item.created, item.text, CreatedEmoji) == Written(t.created)
    ensures ParseDateKey(item.completion, item.text, CompletionEmoji) == Written(t.completion)
  {
    if d == TasksPlugin {
      TasksDatesReadBack(t, item);
    } else {
      KeywordDatesReadBack(t, d, item);
    }
  }

  /** `textToTask` undoes `taskToText`: the record read back from the line
      written for a plain task, with the fields Dataview parses from that
      line, carries the task's scheduled text, its priority (HIGHEST aside,
      which the source's guard loses), its length (a full-calendar length
      only when the task ends on its start day) and its due, start, created
      and completion dates. */
  lemma TaskLineReadsBack(t: Task, d: Dialect, item: RawItem)
    requires PlainTask(t) && ScheduleQuiet(t) && ScheduledIso(t) && DateQuiet(t) && DatesIso(t)
    requires Highest <= t.priority <= Lowest
    requires t.length.Some? ==> t.length.value.hour >= 0 && t.length.value.minute >= 0
    requires ValidItem(item) && ReadsLine(item, t, d)
    ensures TextToTask(item).scheduled == t.scheduled
    ensures TextToTask(item).due == Written(t.due) && TextToTask(item).start == Written(t.start)
    ensures TextToTask(item).created == Written(t.created) && TextToTask(item).completion == Written(t.completion)
    ensures TextToTask(item).priority == (if t.priority == Highest then Default else t.priority)
    ensures d != FullCalendar ==> TextToTask(item).length == (if HasLength(t) then t.length else None)
    ensures d == FullCalendar ==> !HasLength(t) ==> TextToTask(item).length.None?
    ensures d == FullCalendar && HasLength(t) ==>
      var total := Minutes(t.length.value);
      FromIso(t.scheduled.value).value.minute + total < 1440 ==>
        TextToTask(item).length == Some(Length(total / 60, total % 60))
  {
    match d {
      case Dataview => DataviewScheduledRoundTrip(t, item);
      case FullCalendar => FullCalendarScheduledRoundTrip(t, item);
      case TasksPlugin => TasksScheduledRoundTrip(t, item);
    }
    PriorityReadsBack(t, d, item);
    LengthReadsBack(t, d, item);
    DatesReadBack(t, d, item);
  }
}
