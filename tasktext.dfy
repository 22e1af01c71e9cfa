/**
 * `taskToText`: one markdown line for a task record, in one of the three
 * field dialects (src/services/obsidianApi.ts:335-415).
 */
module TaskText {
  import opened Text
  import opened IsoTime
  import opened Enums
  import opened TaskRecord

  /** `settings.fieldFormat`. */
  datatype Dialect = Dataview | FullCalendar | TasksPlugin

  /** `- [x] ` for a completed task, `- [ ] ` otherwise. */
  function Checkbox(t: Task): string
  {
    if Present(t.completion) then "- [x] " else "- [ ] "
  }

  /** The checkbox, the title without trailing whitespace, a space, and the
      tags each followed by a space. */
  function HeadText(t: Task): string
  {
    Checkbox(t) + TrimEnd(t.title) + " " + (if |t.tags| > 0 then Join(t.tags, " ") + " " else "")
  }

  /** An inline field `[key:: value]`. */
  function FieldText(key: string, value: string): string
  {
    "[" + key + ":: " + value + "]"
  }

  function ByKey(e: (string, string)): string
  {
    e.0
  }

  /** `_.sortBy(_.entries(task.extraFields), 0)`. */
  function SortedFields(t: Task): seq<(string, string)>
  {
    SortBy(t.extraFields, ByKey)
  }

  /** The extra fields are written sorted by key, each exactly as often as
      the record holds it. */
  lemma FieldsSortedByKey(t: Task)
    ensures SortedBy(SortedFields(t), ByKey)
    ensures multiset(SortedFields(t)) == multiset(t.extraFields)
  {
    SortBySorted(t.extraFields, ByKey);
  }

  /** The inline fields of `fs`, in order. */
  function FieldsText(fs: seq<(string, string)>): string
  {
    if fs == [] then "" else FieldsText(fs[..|fs| - 1]) + FieldText(fs[|fs| - 1].0, fs[|fs| - 1].1)
  }

  predicate HasLength(t: Task)
  {
    t.length.Some? && t.length.value.hour + t.length.value.minute > 0
  }

  /** `${hour}h${minute}m`, each part left out when it is 0. */
  function LengthText(l: Length): string
  {
    (if l.hour != 0 then IntText(l.hour) + "h" else "") + (if l.minute != 0 then IntText(l.minute) + "m" else "")
  }

  /** `s.slice(0, 10)`. */
  function Head10(s: string): string
  {
    if |s| <= 10 then s else s[..10]
  }

  /** `s.slice(11)`. */
  function From11(s: string): string
  {
    if |s| <= 11 then "" else s[11..]
  }

  /** `${endTime.hour}:${endTime.minute}` of the scheduled time plus the
      length, unpadded; an invalid start prints `NaN:NaN`. */
  function EndTimeText(s: string, l: Length): string
  {
    match FromIso(s)
    case None => "NaN:NaN"
    case Some(m) =>
      var e := PlusMinutes(m, Minutes(l));
      IntText(e.minute / 60) + ":" + IntText(e.minute % 60)
  }

  function ScheduledField(t: Task): string
  {
    if Present(t.scheduled) then "  " + FieldText("scheduled", t.scheduled.value) else ""
  }

  function DueField(t: Task): string
  {
    if Present(t.due) then "  " + FieldText("due", t.due.value) else ""
  }

  function LengthField(t: Task): string
  {
    if HasLength(t) then "  " + FieldText("length", LengthText(t.length.value)) else ""
  }

  /** `[startTime:: hh:mm]` of a scheduled time that is not date-only. */
  function StartTimeField(t: Task): string
  {
    if Present(t.scheduled) && !IsDateIso(t.scheduled.value) then
      "  " + FieldText("startTime", From11(t.scheduled.value))
    else ""
  }

  function DateFields(t: Task): string
  {
    if Present(t.scheduled) then "  " + FieldText("date", Head10(t.scheduled.value)) + StartTimeField(t) else ""
  }

  function EndTimeField(t: Task): string
  {
    if HasLength(t) && Present(t.scheduled) then
      "  " + FieldText("endTime", EndTimeText(t.scheduled.value, t.length.value))
    else ""
  }

  function ScheduledMarker(t: Task): string
  {
    if Present(t.scheduled) then StartTimeField(t) + (" " + [ScheduledEmoji] + " " + Head10(t.scheduled.value)) else ""
  }

  function DueMarker(t: Task): string
  {
    if Present(t.due) then " " + [DueEmoji] + " " + t.due.value else ""
  }

  /** The first switch: scheduled, due and length. */
  function DatesText(t: Task, d: Dialect): string
  {
    match d
    case Dataview => ScheduledField(t) + DueField(t) + LengthField(t)
    case FullCalendar => DateFields(t) + DueField(t) + EndTimeField(t)
    case TasksPlugin => LengthField(t) + ScheduledMarker(t) + DueMarker(t)
  }

  /** A missing table entry prints as `undefined`. */
  function OrUndefined(o: Option<string>): string
  {
    if o.Some? then o.value else "undefined"
  }

  /** The priority part, written for every priority other than DEFAULT: a
      keyword field, or the Tasks marker of the keyword. */
  function PriorityText(p: int, d: Dialect): (r: string)
    ensures r == "" <==> p == Default
  {
    if p == Default then ""
    else if d != TasksPlugin then "  " + FieldText("priority", OrUndefined(PriorityKey(p)))
    else
      var key := PriorityKey(p);
      var emoji := if key.Some? then PriorityEmoji(key.value) else None;
      " " + (if emoji.Some? then [emoji.value] else "undefined")
  }

  /** The priority part as the source guards it, `task.priority &&
      task.priority !== DEFAULT`: the priority numbered 0 is falsy and is
      never written. */
  function PriorityTextAsWritten(p: int, d: Dialect): (r: string)
    ensures r == "" <==> p == Default || p == 0
    ensures p != 0 ==> r == PriorityText(p, d)
  {
    if p != 0 then PriorityText(p, d) else ""
  }

  function StartMark(t: Task, d: Dialect): string
  {
    if !Present(t.start) then ""
    else if d != TasksPlugin then "  " + FieldText("start", t.start.value)
    else " " + [StartEmoji] + " " + t.start.value
  }

  function CreatedMark(t: Task, d: Dialect): string
  {
    if !Present(t.created) then ""
    else if d != TasksPlugin then "  " + FieldText("created", t.created.value)
    else " " + [CreatedEmoji] + " " + t.created.value
  }

  function CompletionMark(t: Task, d: Dialect): string
  {
    if !Present(t.completion) then ""
    else if d != TasksPlugin then "  " + FieldText("completion", t.completion.value)
    else " " + [CompletionEmoji] + " " + t.completion.value
  }

  /** The second switch: start, created, the given priority part, completion. */
  function MarksText(t: Task, d: Dialect, priority: string): string
  {
    StartMark(t, d) + CreatedMark(t, d) + priority + CompletionMark(t, d)
  }

  /** All the line writes before its priority part. */
  function BeforePriority(t: Task, d: Dialect): string
  {
    HeadText(t) + FieldsText(SortedFields(t)) + DatesText(t, d) + StartMark(t, d) + CreatedMark(t, d)
  }

  /** The line `taskToText` writes, with every priority but DEFAULT written. */
  function TaskLine(t: Task, d: Dialect): string
  {
    HeadText(t) + FieldsText(SortedFields(t)) + DatesText(t, d) + MarksText(t, d, PriorityText(t.priority, d))
  }

  /** The line as the source writes it, dropping the priority numbered 0. */
  function TaskLineAsWritten(t: Task, d: Dialect): string
  {
    HeadText(t) + FieldsText(SortedFields(t)) + DatesText(t, d) + MarksText(t, d, PriorityTextAsWritten(t.priority, d))
  }

  /** The priority part stands between the created date and the completion
      date, in either form of the line. */
  lemma LineAroundPriority(t: Task, d: Dialect)
    ensures TaskLine(t, d) == BeforePriority(t, d) + PriorityText(t.priority, d) + CompletionMark(t, d)
    ensures TaskLineAsWritten(t, d) == BeforePriority(t, d) + PriorityTextAsWritten(t.priority, d) + CompletionMark(t, d)
  {
    var line := HeadText(t) + FieldsText(SortedFields(t)) + DatesText(t, d);
    Regroup(line, StartMark(t, d), CreatedMark(t, d), PriorityText(t.priority, d), CompletionMark(t, d));
    Regroup(line, StartMark(t, d), CreatedMark(t, d), PriorityTextAsWritten(t.priority, d), CompletionMark(t, d));
  }

  lemma Regroup(a: string, b: string, c: string, p: string, e: string)
    ensures a + (b + c + p + e) == a + b + c + p + e
  {
  }

  /** `taskToText`: the line built up field by field, with the source's
      priority guard. */
  method TaskToText(t: Task, d: Dialect) returns (draft: string)
    ensures draft == TaskLineAsWritten(t, d)
  {
    draft := HeadText(t);
    draft := AppendFields(draft, SortedFields(t));
    var dates := DatesPart(t, d);
    var marks := MarksPart(t, d);
    draft := draft + dates + marks;
  }

  /** The loop over the sorted fields, each appended as `[key:: value]`. */
  method AppendFields(start: string, fields: seq<(string, string)>) returns (draft: string)
    ensures draft == start + FieldsText(fields)
  {
    draft := start;
    var i := 0;
    while i < |fields|
      invariant 0 <= i <= |fields|
      invariant draft == start + FieldsText(fields[..i])
    {
      assert fields[..i + 1][..i] == fields[..i];
      draft := draft + FieldText(fields[i].0, fields[i].1);
      i := i + 1;
    }
    assert fields[..i] == fields;
  }

  /** The first switch of `taskToText`. */
  method DatesPart(t: Task, d: Dialect) returns (dates: string)
    ensures dates == DatesText(t, d)
  {
    match d {
      case Dataview => dates := DataviewDates(t);
      case FullCalendar => dates := CalendarDates(t);
      case TasksPlugin => dates := TasksDates(t);
    }
  }

  /** The Dataview case: `scheduled`, `due`, `length` fields. */
  method DataviewDates(t: Task) returns (dates: string)
    ensures dates == ScheduledField(t) + DueField(t) + LengthField(t)
  {
    dates := "";
    if Present(t.scheduled) {
      dates := dates + ("  " + FieldText("scheduled", t.scheduled.value));
    }
    assert dates == ScheduledField(t);
    if Present(t.due) {
      dates := dates + ("  " + FieldText("due", t.due.value));
    }
    assert dates == ScheduledField(t) + DueField(t);
    if HasLength(t) {
      dates := dates + ("  " + FieldText("length", LengthText(t.length.value)));
    }
  }

  /** The full-calendar case: `date` and `startTime`, `due`, `endTime`. */
  method CalendarDates(t: Task) returns (dates: string)
    ensures dates == DateFields(t) + DueField(t) + EndTimeField(t)
  {
    dates := "";
    if Present(t.scheduled) {
      var date := "  " + FieldText("date", Head10(t.scheduled.value));
      assert dates + date == date;
      dates := dates + date;
      dates := AppendStartTime(dates, t);
    }
    assert dates == DateFields(t);
    if Present(t.due) {
      dates := dates + ("  " + FieldText("due", t.due.value));
    }
    assert dates == DateFields(t) + DueField(t);
    dates := AppendEndTime(dates, t);
  }

  /** The `startTime` field, written when the scheduled time is not
      date-only. */
  method AppendStartTime(start: string, t: Task) returns (dates: string)
    ensures dates == start + StartTimeField(t)
  {
    dates := start;
    if Present(t.scheduled) && !IsDateIso(t.scheduled.value) {
      dates := dates + ("  " + FieldText("startTime", From11(t.scheduled.value)));
    } else {
      assert StartTimeField(t) == "";
    }
  }

  /** The `endTime` field of the full-calendar case, when the task has a
      length and a scheduled time. */
  method AppendEndTime(start: string, t: Task) returns (dates: string)
    ensures dates == start + EndTimeField(t)
  {
    dates := start;
    if HasLength(t) && Present(t.scheduled) {
      var endTime := EndTimeText(t.scheduled.value, t.length.value);
      dates := dates + ("  " + FieldText("endTime", endTime));
    } else {
      assert EndTimeField(t) == "";
    }
  }

  /** The Tasks case: `length` and `startTime` fields, the scheduled and due
      markers. */
  method TasksDates(t: Task) returns (dates: string)
    ensures dates == LengthField(t) + ScheduledMarker(t) + DueMarker(t)
  {
    dates := "";
    if HasLength(t) {
      dates := dates + ("  " + FieldText("length", LengthText(t.length.value)));
    }
    assert dates == LengthField(t);
    if Present(t.scheduled) {
      dates := AppendStartTime(dates, t);
      dates := dates + (" " + [ScheduledEmoji] + " " + Head10(t.scheduled.value));
    }
    assert dates == LengthField(t) + ScheduledMarker(t);
    if Present(t.due) {
      dates := dates + (" " + [DueEmoji] + " " + t.due.value);
    }
  }

  /** The second switch of `taskToText`; the priority part is guarded by
      `task.priority && task.priority !== DEFAULT`. */
  method MarksPart(t: Task, d: Dialect) returns (marks: string)
    ensures marks == MarksText(t, d, PriorityTextAsWritten(t.priority, d))
  {
    marks := "";
    if d != TasksPlugin {
      if Present(t.start) {
        marks := marks + ("  " + FieldText("start", t.start.value));
      }
      assert marks == StartMark(t, d);
      if Present(t.created) {
        marks := marks + ("  " + FieldText("created", t.created.value));
      }
      assert marks == StartMark(t, d) + CreatedMark(t, d);
      if t.priority != 0 && t.priority != Default {
        marks := marks + ("  " + FieldText("priority", OrUndefined(PriorityKey(t.priority))));
      }
      assert marks == StartMark(t, d) + CreatedMark(t, d) + PriorityTextAsWritten(t.priority, d);
      if Present(t.completion) {
        marks := marks + ("  " + FieldText("completion", t.completion.value));
      }
    } else {
      if Present(t.start) {
        marks := marks + (" " + [StartEmoji] + " " + t.start.value);
      }
      assert marks == StartMark(t, d);
      if Present(t.created) {
        marks := marks + (" " + [CreatedEmoji] + " " + t.created.value);
      }
      assert marks == StartMark(t, d) + CreatedMark(t, d);
      if t.priority != 0 && t.priority != Default {
        marks := marks + PriorityText(t.priority, d);
      }
      assert marks == StartMark(t, d) + CreatedMark(t, d) + PriorityTextAsWritten(t.priority, d);
      if Present(t.completion) {
        marks := marks + (" " + [CompletionEmoji] + " " + t.completion.value);
      }
    }
  }

  /** The line opens with the checkbox of the completion state. */
  lemma LineOpensWithCheckbox(t: Task, d: Dialect)
    ensures |TaskLineAsWritten(t, d)| >= 6
    ensures TaskLineAsWritten(t, d)[..6] == (if Present(t.completion) then "- [x] " else "- [ ] ")
    ensures |TaskLine(t, d)| >= 6
    ensures TaskLine(t, d)[..6] == (if Present(t.completion) then "- [x] " else "- [ ] ")
  {
    HeadOpensWithCheckbox(t);
    PrefixKept(HeadText(t), FieldsText(SortedFields(t)), DatesText(t, d), MarksText(t, d, PriorityTextAsWritten(t.priority, d)));
    PrefixKept(HeadText(t), FieldsText(SortedFields(t)), DatesText(t, d), MarksText(t, d, PriorityText(t.priority, d)));
  }

  lemma HeadOpensWithCheckbox(t: Task)
    ensures |HeadText(t)| >= 6 && HeadText(t)[..6] == Checkbox(t)
  {
    var c := Checkbox(t);
    var rest := TrimEnd(t.title) + " " + (if |t.tags| > 0 then Join(t.tags, " ") + " " else "");
    assert HeadText(t) == c + rest;
  }

  lemma PrefixKept(h: string, f: string, dd: string, m: string)
    requires |h| >= 6
    ensures |h + f + dd + m| >= 6 && (h + f + dd + m)[..6] == h[..6]
  {
    assert h + f + dd + m == h + (f + dd + m);
  }

  /** Reading a length field back: optional `<digits>h`, then optional
      `<digits>m`, at least one of them. */
  function ReadLength(s: string): Option<Length>
  {
    var hs := LeadingDigits(s);
    var hasHours := hs != [] && |hs| < |s| && s[|hs|] == 'h';
    var hour: int := if hasHours then DigitsValue(hs) else 0;
    var rest := if hasHours then s[|hs| + 1..] else s;
    var ms := LeadingDigits(rest);
    if rest == [] then (if hasHours then Some(Length(hour, 0)) else None)
    else if ms != [] && rest == ms + "m" then Some(Length(hour, DigitsValue(ms)))
    else None
  }

  /** A written non-negative length reads back unchanged, and each part
      appears exactly when it is not 0. */
  lemma LengthTextReadsBack(l: Length)
    requires l.hour >= 0 && l.minute >= 0 && l.hour + l.minute > 0
    ensures ReadLength(LengthText(l)) == Some(l)
    ensures ('h' in LengthText(l)) <==> l.hour != 0
    ensures ('m' in LengthText(l)) <==> l.minute != 0
  {
    LengthTextParts(l);
    if l.hour != 0 {
      HoursReadBack(l);
    } else {
      MinutesReadBack(l);
    }
  }

  /** With an hour part, the digits before `h` are the hours and the rest
      the minute part. */
  lemma HoursReadBack(l: Length)
    requires l.hour > 0 && l.minute >= 0
    ensures ReadLength(LengthText(l)) == Some(l)
  {
    LengthTextParts(l);
    if l.minute == 0 {
      assert LengthText(l) == NatText(l.hour) + ("h" + "");
      HourPrefix(l.hour, "");
    } else {
      var mt := NatText(l.minute) + "m";
      assert LengthText(l) == NatText(l.hour) + ("h" + mt);
      HourPrefix(l.hour, mt);
      LeadingDigitsOf(NatText(l.minute), "m");
      NatTextValue(l.minute);
    }
  }

  /** The hours written before `h` are read as the leading digits, and
      what follows the `h` is left for the minutes. */
  lemma HourPrefix(n: nat, rest: string)
    requires n > 0
    ensures var s := NatText(n) + ("h" + rest);
      && LeadingDigits(s) == NatText(n) && |NatText(n)| < |s| && s[|NatText(n)|] == 'h'
      && DigitsValue(NatText(n)) == n && s[|NatText(n)| + 1..] == rest
  {
    var s := NatText(n) + ("h" + rest);
    LeadingDigitsOf(NatText(n), "h" + rest);
    NatTextValue(n);
    assert s[|NatText(n)| + 1..] == rest;
  }

  /** Without an hour part, the digits are not followed by `h` and the
      whole text is the minute part. */
  lemma MinutesReadBack(l: Length)
    requires l.hour == 0 && l.minute > 0
    ensures ReadLength(LengthText(l)) == Some(l)
  {
    LengthTextParts(l);
    var s := LengthText(l);
    assert s == NatText(l.minute) + "m";
    LeadingDigitsOf(NatText(l.minute), "m");
    NatTextValue(l.minute);
  }

  /** The written length is its hour part then its minute part, and the
      numbers hold neither letter. */
  lemma LengthTextParts(l: Length)
    requires l.hour >= 0 && l.minute >= 0
    ensures LengthText(l) == (if l.hour != 0 then NatText(l.hour) + "h" else "")
                             + (if l.minute != 0 then NatText(l.minute) + "m" else "")
    ensures ('h' in LengthText(l)) <==> l.hour != 0
    ensures ('m' in LengthText(l)) <==> l.minute != 0
  {
    assert 'h' !in NatText(l.hour) && 'm' !in NatText(l.hour) by {
      assert forall k :: 0 <= k < |NatText(l.hour)| ==> IsDigit(NatText(l.hour)[k]);
    }
    assert 'h' !in NatText(l.minute) && 'm' !in NatText(l.minute) by {
      assert forall k :: 0 <= k < |NatText(l.minute)| ==> IsDigit(NatText(l.minute)[k]);
    }
  }
}
