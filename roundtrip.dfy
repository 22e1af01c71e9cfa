/**
 * What `taskToText` writes, read back by the `textToTask` helpers. Dataview's
 * own parsing of inline fields is not part of this model: where a lemma
 * needs a field Dataview extracts from the line, it takes that field as a
 * hypothesis, stated as what the written field holds.
 */
module RoundTrip {
  import opened Text
  import opened IsoTime
  import opened Enums
  import opened TaskRecord
  import opened TaskParse
  import opened TaskText

  // ---- priority markers ----

  /** No priority marker occurs in `s`. */
  predicate MarkerFree(s: string)
  {
    forall i :: 0 <= i < |RankedEmoji| ==> RankedEmoji[i] !in s
  }

  predicate OptionFree(o: Option<string>)
  {
    o.Some? ==> MarkerFree(o.value)
  }

  /** A task whose own texts (title, tags, extra fields, dates) carry no
      priority marker. */
  predicate PlainTask(t: Task)
  {
    && MarkerFree(t.title)
    && (forall k :: 0 <= k < |t.tags| ==> MarkerFree(t.tags[k]))
    && (forall e :: e in t.extraFields ==> MarkerFree(e.0) && MarkerFree(e.1))
    && OptionFree(t.scheduled) && OptionFree(t.due) && OptionFree(t.start)
    && OptionFree(t.created) && OptionFree(t.completion)
  }

  lemma SliceFree(s: string, i: nat, j: nat)
    requires MarkerFree(s) && i <= j <= |s|
    ensures MarkerFree(s[i..j])
  {
  }

  lemma IntTextFree(n: int)
    ensures MarkerFree(IntText(n))
  {
  }

  lemma {:induction false} JoinFree(parts: seq<string>, sep: string)
    requires MarkerFree(sep)
    requires forall k :: 0 <= k < |parts| ==> MarkerFree(parts[k])
    ensures MarkerFree(Join(parts, sep))
    decreases |parts|
  {
    if |parts| > 1 {
      JoinFree(parts[1..], sep);
    }
  }

  lemma {:induction false} FieldsFree(fs: seq<(string, string)>)
    requires forall k :: 0 <= k < |fs| ==> MarkerFree(fs[k].0) && MarkerFree(fs[k].1)
    ensures MarkerFree(FieldsText(fs))
    decreases |fs|
  {
    if fs != [] {
      FieldsFree(fs[..|fs| - 1]);
    }
  }

  lemma OptionSlicesFree(o: Option<string>)
    requires OptionFree(o) && o.Some?
    ensures MarkerFree(Head10(o.value)) && MarkerFree(From11(o.value))
  {
    if |o.value| > 10 {
      SliceFree(o.value, 0, 10);
    }
    if |o.value| > 11 {
      SliceFree(o.value, 11, |o.value|);
    }
  }

  lemma HeadFree(t: Task)
    requires PlainTask(t)
    ensures MarkerFree(HeadText(t))
  {
    SliceFree(t.title, 0, |TrimEnd(t.title)|);
    JoinFree(t.tags, " ");
  }

  lemma SortedFieldsFree(t: Task)
    requires PlainTask(t)
    ensures MarkerFree(FieldsText(SortedFields(t)))
  {
    var fs := SortedFields(t);
    FieldsSortedByKey(t);
    forall k | 0 <= k < |fs|
      ensures MarkerFree(fs[k].0) && MarkerFree(fs[k].1)
    {
      assert fs[k] in multiset(fs);
    }
    FieldsFree(fs);
  }

  lemma TasksDatesFree(t: Task)
    requires PlainTask(t)
    ensures MarkerFree(DatesText(t, TasksPlugin))
  {
    LengthFieldFree(t);
    ScheduledMarkerFree(t);
    DueMarkerFree(t);
    ConcatFree(LengthField(t), ScheduledMarker(t));
    ConcatFree(LengthField(t) + ScheduledMarker(t), DueMarker(t));
  }

  lemma ConcatFree(a: string, b: string)
    requires MarkerFree(a) && MarkerFree(b)
    ensures MarkerFree(a + b)
  {
  }

  lemma LengthFieldFree(t: Task)
    requires PlainTask(t)
    ensures MarkerFree(LengthField(t))
  {
    if t.length.Some? {
      IntTextFree(t.length.value.hour);
      IntTextFree(t.length.value.minute);
    }
  }

  lemma ScheduledMarkerFree(t: Task)
    requires PlainTask(t)
    ensures MarkerFree(ScheduledMarker(t))
  {
    if t.scheduled.Some? {
      OptionSlicesFree(t.scheduled);
      assert MarkerFree(StartTimeField(t));
    }
  }

  lemma DueMarkerFree(t: Task)
    requires PlainTask(t)
    ensures MarkerFree(DueMarker(t))
  {
  }

  lemma TasksMarksFree(t: Task)
    requires PlainTask(t)
    ensures MarkerFree(StartMark(t, TasksPlugin))
    ensures MarkerFree(CreatedMark(t, TasksPlugin))
    ensures MarkerFree(CompletionMark(t, TasksPlugin))
  {
  }

  /** Everything `taskToText` writes in the Tasks dialect around the
      priority part is free of priority markers. */
  lemma TasksLineFree(t: Task)
    requires PlainTask(t)
    ensures MarkerFree(BeforePriority(t, TasksPlugin))
    ensures MarkerFree(CompletionMark(t, TasksPlugin))
  {
    HeadFree(t);
    SortedFieldsFree(t);
    TasksDatesFree(t);
    TasksMarksFree(t);
  }

  /** The priority scan reads back the one marker standing between marker-free
      text. */
  lemma MarkerReadsBack(before: string, p: int, after: string)
    requires MarkerFree(before) && MarkerFree(after)
    requires Highest <= p <= Lowest
    ensures PriorityOf(NoPriority, before + PriorityText(p, TasksPlugin) + after) == p
  {
    var text := before + PriorityText(p, TasksPlugin) + after;
    if p == Default {
      assert text == before + after;
    } else {
      var i := if p < Default then p else p - 1;
      assert RankedNumber[i] == p;
      assert PriorityText(p, TasksPlugin) == " " + [RankedEmoji[i]];
      assert RankedEmoji[i] in text by {
        assert text[|before| + 1] == RankedEmoji[i];
      }
    }
  }

  /** With every priority but DEFAULT written, the Tasks dialect keeps the
      priority: the scan of the written line gives the record's priority. */
  lemma TasksPriorityRoundTrip(t: Task)
    requires PlainTask(t) && Highest <= t.priority <= Lowest
    ensures PriorityOf(NoPriority, TaskLine(t, TasksPlugin)) == t.priority
  {
    TasksLineFree(t);
    LineAroundPriority(t, TasksPlugin);
    MarkerReadsBack(BeforePriority(t, TasksPlugin), t.priority, CompletionMark(t, TasksPlugin));
  }

  /** As the source guards the priority, a HIGHEST task written in the Tasks
      dialect carries no marker and reads back as DEFAULT. */
  lemma HighestLostAsWritten(t: Task)
    requires PlainTask(t) && t.priority == Highest
    ensures PriorityOf(NoPriority, TaskLineAsWritten(t, TasksPlugin)) == Default
    ensures PriorityOf(NoPriority, TaskLineAsWritten(t, TasksPlugin)) != t.priority
  {
    TasksLineFree(t);
    LineAroundPriority(t, TasksPlugin);
    assert PriorityTextAsWritten(t.priority, TasksPlugin) == PriorityText(Default, TasksPlugin);
    MarkerReadsBack(BeforePriority(t, TasksPlugin), Default, CompletionMark(t, TasksPlugin));
  }

  /** In the keyword dialects the written keyword, handed back by Dataview as
      the `priority` value, maps to the record's priority. */
  lemma KeywordPriorityRoundTrip(p: int, text: string)
    requires Highest <= p <= Lowest
    ensures PriorityKey(p).Some? && PriorityKey(p).value != ""
    ensures PriorityOf(KeyPriority(PriorityKey(p).value), text) == p
  {
  }

  // ---- the full-calendar end time ----

  lemma {:induction false} SplitNoSeparator(s: string, sep: char)
    requires sep !in s
    ensures Split(s, sep) == [s]
    decreases |s|
  {
    if s != [] {
      SplitNoSeparator(s[1..], sep);
      assert [s[0]] + s[1..] == s;
    }
  }

  lemma {:induction false} SplitAtSeparator(a: string, sep: char, b: string)
    requires sep !in a && sep !in b
    ensures Split(a + [sep] + b, sep) == [a, b]
    decreases |a|
  {
    var s := a + [sep] + b;
    if a == [] {
      assert s[1..] == b;
      SplitNoSeparator(b, sep);
    } else {
      assert s[1..] == a[1..] + [sep] + b;
      SplitAtSeparator(a[1..], sep, b);
      assert [a[0]] + a[1..] == a;
    }
  }

  lemma NatTextNoColon(n: nat)
    ensures ':' !in NatText(n)
  {
    assert forall k :: 0 <= k < |NatText(n)| ==> IsDigit(NatText(n)[k]);
  }

  /** `h:m`, written unpadded, reads back through `split(':')` and `parseInt`. */
  lemma TimeOfDayReadsBack(h: nat, m: nat)
    ensures TimeOfDay(NatText(h) + ":" + NatText(m)) == Some((h, m))
  {
    NatTextNoColon(h);
    NatTextNoColon(m);
    ParseIntNat(h);
    ParseIntNat(m);
    assert NatText(h) + ":" + NatText(m) == NatText(h) + [':'] + NatText(m);
    TimeOfDayOf(NatText(h), NatText(m), h, m);
  }

  /** Two numbers around one colon read as that hour and minute. */
  lemma TimeOfDayOf(a: string, b: string, x: int, y: int)
    requires ':' !in a && ':' !in b
    requires ParseInt(a) == Some(x) && ParseInt(b) == Some(y)
    ensures TimeOfDay(a + [':'] + b) == Some((x, y))
  {
    SplitAtSeparator(a, ':', b);
  }

  lemma ParseIntNat(n: nat)
    ensures ParseInt(NatText(n)) == Some(n)
  {
    ParseIntNatText(n, "");
    assert NatText(n) + "" == NatText(n);
  }

  /** The `endTime` the full-calendar dialect writes reads back as the hour
      and minute of the moment the length reaches from the start. */
  lemma EndTimeReads(s: string, l: Length)
    requires FromIso(s).Some?
    requires l.hour >= 0 && l.minute >= 0
    ensures var e := PlusMinutes(FromIso(s).value, Minutes(l)).minute;
      TimeOfDay(EndTimeText(s, l)) == Some((e / 60, e % 60))
  {
    var e := PlusMinutes(FromIso(s).value, Minutes(l));
    assert EndTimeText(s, l) == NatText(e.minute / 60) + ":" + NatText(e.minute % 60);
    TimeOfDayReadsBack(e.minute / 60, e.minute % 60);
  }

  /** Hours and minutes below 60 of a total are its quotient and remainder. */
  lemma HoursMinutesUnique(total: int, hour: int, minute: int)
    requires 0 <= minute < 60 && hour * 60 + minute == total
    ensures hour == total / 60 && minute == total % 60
  {
  }

  /** Splitting a minute of day into hours and minutes. */
  lemma ClockParts(e: int)
    ensures (e / 60) * 60 + e % 60 == e && 0 <= e % 60 < 60
  {
  }

  /** A length below 60 minutes past its hours is the quotient and
      remainder of the total minutes of `l`. */
  lemma LengthOfTotal(r: Option<Length>, l: Length)
    requires r.Some? && 0 <= r.value.minute < 60 && r.value.hour * 60 + r.value.minute == Minutes(l)
    ensures r == Some(Length(Minutes(l) / 60, Minutes(l) % 60))
  {
    var total := Minutes(l);
    HoursMinutesUnique(total, r.value.hour, r.value.minute);
  }

  /** The `endTime` of the record reads back as some hour and minute
      whose total is the minute of day of the end. */
  lemma EndClock(item: RawItem, s: string, l: Length) returns (hour: int, minute: int)
    requires FromIso(s).Some?
    requires l.hour >= 0 && l.minute >= 0
    requires item.endTime == EndTimeText(s, l)
    ensures TimeOfDay(item.endTime) == Some((hour, minute))
    ensures 0 <= minute < 60 && hour * 60 + minute == PlusMinutes(FromIso(s).value, Minutes(l)).minute
  {
    var e := PlusMinutes(FromIso(s).value, Minutes(l)).minute;
    ClockParts(e);
    hour, minute := e / 60, e % 60;
    EndTimeReads(s, l);
  }

  /** The `endTime` the full-calendar dialect writes gives the length back
      (as hours and minutes of the same total) when the task ends on the day
      it starts; when it ends on the next day the length is lost. */
  lemma EndTimeRoundTrip(item: RawItem, s: string, l: Length)
    requires FromIso(s).Some?
    requires l.hour >= 0 && l.minute >= 0
    requires item.length.None? && item.endTime == EndTimeText(s, l)
    ensures FromIso(s).value.minute + Minutes(l) < 1440 ==>
      ParseLength(item, Some(s)) == Some(Length(Minutes(l) / 60, Minutes(l) % 60))
    ensures Minutes(l) < 1440 <= FromIso(s).value.minute + Minutes(l) ==>
      ParseLength(item, Some(s)).None?
  {
    if FromIso(s).value.minute + Minutes(l) < 1440 {
      EndTimeSameDay(item, s, l);
    } else if Minutes(l) < 1440 {
      EndTimeNextDay(item, s, l);
    }
  }

  lemma EndTimeSameDay(item: RawItem, s: string, l: Length)
    requires FromIso(s).Some?
    requires l.hour >= 0 && l.minute >= 0
    requires item.length.None? && item.endTime == EndTimeText(s, l)
    requires FromIso(s).value.minute + Minutes(l) < 1440
    ensures ParseLength(item, Some(s)) == Some(Length(Minutes(l) / 60, Minutes(l) % 60))
  {
    var m := FromIso(s).value;
    SameDayMinute(m, Minutes(l));
    var hour, minute := EndClock(item, s, l);
    SameDayLength(item, s, m, l, hour, minute);
  }

  /** An end clock `total` minutes after the start, on the same day, reads
      back as the hours and minutes of `total`. */
  lemma SameDayLength(item: RawItem, s: string, m: Moment, l: Length, hour: int, minute: int)
    requires item.length.None? && FromIso(s) == Some(m)
    requires TimeOfDay(item.endTime) == Some((hour, minute))
    requires l.hour >= 0 && l.minute >= 0 && 0 <= minute < 60
    requires hour * 60 + minute == m.minute + Minutes(l)
    ensures ParseLength(item, Some(s)) == Some(Length(Minutes(l) / 60, Minutes(l) % 60))
  {
    EndTimeLength(item, s, m, hour, minute);
    LengthOfTotal(ParseLength(item, Some(s)), l);
  }

  lemma EndTimeNextDay(item: RawItem, s: string, l: Length)
    requires FromIso(s).Some?
    requires l.hour >= 0 && l.minute >= 0
    requires item.length.None? && item.endTime == EndTimeText(s, l)
    requires Minutes(l) < 1440 <= FromIso(s).value.minute + Minutes(l)
    ensures ParseLength(item, Some(s)).None?
  {
    NextDayMinute(FromIso(s).value, Minutes(l));
    var hour, minute := EndClock(item, s, l);
    EndTimeLength(item, s, FromIso(s).value, hour, minute);
  }

  lemma SameDayMinute(m: Moment, k: int)
    requires ValidMoment(m) && k >= 0 && m.minute + k < 1440
    ensures PlusMinutes(m, k).minute == m.minute + k
  {
    PlusMinutesMinute(m, k);
  }

  lemma NextDayMinute(m: Moment, k: int)
    requires ValidMoment(m) && 0 <= k < 1440 <= m.minute + k
    ensures PlusMinutes(m, k).minute < m.minute
  {
    PlusMinutesMinute(m, k);
  }

  // ---- the scheduled value ----

  lemma ParseIntDigits(ds: string)
    requires ds != [] && AllDigits(ds)
    ensures ParseInt(ds) == Some(DigitsValue(ds))
  {
    assert !IsSpace(ds[0]) && ds[0] != '-' && ds[0] != '+';
    assert SkipSpaces(ds) == ds;
    LeadingDigitsOf(ds, "");
    assert ds + "" == ds;
  }

  /** The `hh:mm` of a date-and-time text reads back as its hour and minute. */
  lemma TimeOfFormReadsBack(s: string)
    requires DateTimeForm(s)
    ensures TimeOfDay(From11(s)) == Some((DigitsValue(s[11..13]), DigitsValue(s[14..16])))
  {
    var hh := s[11..13];
    var mm := s[14..16];
    assert From11(s) == hh + [':'] + mm;
    assert ':' !in hh && ':' !in mm by {
      assert IsDigit(hh[0]) && IsDigit(hh[1]) && IsDigit(mm[0]) && IsDigit(mm[1]);
    }
    SplitAtSeparator(hh, ':', mm);
    ParseIntDigits(hh);
    ParseIntDigits(mm);
  }

  /** The parsed moment of a date-and-time text is its date at its minute. */
  lemma DateTimeFormMoment(s: string)
    requires DateTimeForm(s) && FromIso(s).Some?
    ensures FromIso(s[..10]) == Some(Moment(FromIso(s).value.date, 0))
    ensures FromIso(s).value.minute == DigitsValue(s[11..13]) * 60 + DigitsValue(s[14..16])
    ensures DigitsValue(s[11..13]) < 24 && DigitsValue(s[14..16]) < 60
  {
    assert !DateForm(s);
  }

  // ---- where the scheduled pattern first matches on a written line ----

  /** Text with no `[` and no scheduled marker: neither alternative of the
      scheduled pattern can start inside it. */
  predicate Quiet(s: string)
  {
    '[' !in s && ScheduledEmoji !in s
  }

  /** Text in front of which the scheduled pattern finds what it finds
      without it: no match starts inside it, whatever follows. */
  ghost predicate Inert(p: string)
  {
    forall tail :: ScheduledMatch(p + tail) == ScheduledMatch(tail)
  }

  /** An extra field the scheduled pattern passes over: its key and value
      hold no `[` and no marker, and the key, which cannot hold `::`, is not
      `scheduled`. */
  predicate QuietField(e: (string, string))
  {
    Quiet(e.0) && Quiet(e.1) && ':' !in e.0 && e.0 != "scheduled"
  }

  /** A task whose title, tags and extra fields the scheduled pattern
      passes over. */
  predicate ScheduleQuiet(t: Task)
  {
    && Quiet(t.title)
    && (forall k :: 0 <= k < |t.tags| ==> Quiet(t.tags[k]))
    && (forall e :: e in t.extraFields ==> QuietField(e))
  }

  /** Nothing, or text opening with a space. */
  predicate SpaceLed(s: string)
  {
    s == [] || s[0] == ' '
  }

  /** The pattern moves past a first character at which neither
      alternative starts. */
  lemma StepOver(text: string)
    requires text != [] && text[0] != ScheduledEmoji && !StartsWith(text, ScheduledOpen)
    ensures ScheduledMatch(text) == ScheduledMatch(text[1..])
  {
  }

  lemma {:induction false} QuietInert(p: string)
    requires Quiet(p)
    ensures Inert(p)
    decreases |p|
  {
    if p != [] {
      QuietInert(p[1..]);
      forall tail
        ensures ScheduledMatch(p + tail) == ScheduledMatch(tail)
      {
        var text := p + tail;
        DropFirst(p, tail);
        assert !StartsWith(text, ScheduledOpen) by {
          assert text[0] != ScheduledOpen[0];
        }
        StepOver(text);
        assert ScheduledMatch(p[1..] + tail) == ScheduledMatch(tail);
      }
    } else {
      forall tail
        ensures ScheduledMatch(p + tail) == ScheduledMatch(tail)
      {
        assert p + tail == tail;
      }
    }
  }

  lemma InertConcat(a: string, b: string)
    requires Inert(a) && Inert(b)
    ensures Inert(a + b)
  {
    forall tail
      ensures ScheduledMatch(a + b + tail) == ScheduledMatch(tail)
    {
      assert a + b + tail == a + (b + tail);
      assert ScheduledMatch(a + (b + tail)) == ScheduledMatch(b + tail);
    }
  }

  lemma QuietConcat(a: string, b: string)
    requires Quiet(a) && Quiet(b)
    ensures Quiet(a + b)
  {
  }

  /** `[` followed by a character other than `s` cannot open
      `[scheduled:: `, so the pattern passes over it. */
  lemma BracketInert(c: char, rest: string)
    requires c != 's' && Quiet([c] + rest)
    ensures Inert(['['] + [c] + rest)
  {
    var p := ['['] + [c] + rest;
    QuietInert([c] + rest);
    forall tail
      ensures ScheduledMatch(p + tail) == ScheduledMatch(tail)
    {
      var text := p + tail;
      assert text[1] == c && ScheduledOpen[1] == 's';
      assert text[1..] == [c] + rest + tail;
      StepOver(text);
      assert ScheduledMatch([c] + rest + tail) == ScheduledMatch(tail);
    }
  }

  /** The checkbox `- [ ] ` or `- [x] ` is passed over. */
  lemma CheckboxInert(t: Task)
    ensures Inert(Checkbox(t))
  {
    var c := if Present(t.completion) then 'x' else ' ';
    assert Checkbox(t) == "- " + (['['] + [c] + "] ");
    QuietInert("- ");
    BracketInert(c, "] ");
    InertConcat("- ", ['['] + [c] + "] ");
  }

  /** The key of an inline field that is not `scheduled` and holds no colon
      makes `[key:: ` differ from `[scheduled:: ` somewhere. */
  lemma KeyMismatch(k: string, text: string)
    requires ':' !in k && k != "scheduled"
    requires StartsWith(text, "[" + k + ":: ")
    ensures !StartsWith(text, ScheduledOpen)
  {
    var open := "[" + k + ":: ";
    assert text[..|open|] == open;
    var j: int;
    if |k| < 9 {
      j := |k| + 1;
      assert text[j] == open[j] == ':';
    } else if k[..9] != "scheduled" {
      var i :| 0 <= i < 9 && k[i] != "scheduled"[i];
      j := i + 1;
      assert text[j] == open[j] == k[i];
    } else {
      assert |k| != 9;
      j := 10;
      assert text[j] == open[j] == k[9];
      assert k[9] in k;
    }
    assert 0 < j < 13 && j < |text| && text[j] != ScheduledOpen[j];
  }

  /** An inline field `[key:: value]` of a quiet field is passed over. */
  lemma FieldInert(k: string, v: string)
    requires QuietField((k, v))
    ensures Inert(FieldText(k, v))
  {
    var p := FieldText(k, v);
    var rest := k + ":: " + v + "]";
    assert p == "[" + rest;
    QuietInert(rest);
    forall tail
      ensures ScheduledMatch(p + tail) == ScheduledMatch(tail)
    {
      var text := p + tail;
      assert text[..|"[" + k + ":: "|] == "[" + k + ":: ";
      KeyMismatch(k, text);
      assert text[1..] == rest + tail;
      StepOver(text);
      assert ScheduledMatch(rest + tail) == ScheduledMatch(tail);
    }
  }

  lemma {:induction false} JoinQuiet(parts: seq<string>, sep: string)
    requires Quiet(sep)
    requires forall k :: 0 <= k < |parts| ==> Quiet(parts[k])
    ensures Quiet(Join(parts, sep))
    decreases |parts|
  {
    if |parts| > 1 {
      JoinQuiet(parts[1..], sep);
    }
  }

  lemma HeadInert(t: Task)
    requires ScheduleQuiet(t)
    ensures Inert(HeadText(t))
  {
    var tags := if |t.tags| > 0 then Join(t.tags, " ") + " " else "";
    JoinQuiet(t.tags, " ");
    var rest := TrimEnd(t.title) + " " + tags;
    assert TrimEnd(t.title) == t.title[..|TrimEnd(t.title)|];
    assert HeadText(t) == Checkbox(t) + rest;
    CheckboxInert(t);
    QuietInert(rest);
    InertConcat(Checkbox(t), rest);
  }

  lemma {:induction false} FieldsInert(fs: seq<(string, string)>)
    requires forall k :: 0 <= k < |fs| ==> QuietField(fs[k])
    ensures Inert(FieldsText(fs))
    decreases |fs|
  {
    if fs == [] {
      QuietInert("");
    } else {
      FieldsInert(fs[..|fs| - 1]);
      FieldInert(fs[|fs| - 1].0, fs[|fs| - 1].1);
      InertConcat(FieldsText(fs[..|fs| - 1]), FieldText(fs[|fs| - 1].0, fs[|fs| - 1].1));
    }
  }

  lemma SortedFieldsInert(t: Task)
    requires ScheduleQuiet(t)
    ensures Inert(FieldsText(SortedFields(t)))
  {
    var fs := SortedFields(t);
    FieldsSortedByKey(t);
    forall k | 0 <= k < |fs|
      ensures QuietField(fs[k])
    {
      assert fs[k] in multiset(fs);
    }
    FieldsInert(fs);
  }

  /** The checkbox, title, tags and extra fields that open every line are
      passed over by the scheduled pattern. */
  lemma OpeningInert(t: Task)
    requires ScheduleQuiet(t)
    ensures Inert(HeadText(t) + FieldsText(SortedFields(t)))
  {
    HeadInert(t);
    SortedFieldsInert(t);
    InertConcat(HeadText(t), FieldsText(SortedFields(t)));
  }

  lemma IntTextQuiet(n: int)
    ensures Quiet(IntText(n))
  {
    var digits := NatText(if n < 0 then -n else n);
    assert forall k :: 0 <= k < |digits| ==> IsDigit(digits[k]);
  }

  /** The Tasks-dialect length and start-time fields are passed over. */
  lemma TasksTimeFieldsInert(t: Task)
    requires t.scheduled.Some? && (DateForm(t.scheduled.value) || DateTimeForm(t.scheduled.value))
    ensures Inert(LengthField(t) + StartTimeField(t))
  {
    LengthFieldInert(t);
    StartTimeFieldInert(t);
    InertConcat(LengthField(t), StartTimeField(t));
  }

  lemma LengthFieldInert(t: Task)
    ensures Inert(LengthField(t))
  {
    if HasLength(t) {
      QuietInert("  ");
      IntTextQuiet(t.length.value.hour);
      IntTextQuiet(t.length.value.minute);
      FieldInert("length", LengthText(t.length.value));
      InertConcat("  ", FieldText("length", LengthText(t.length.value)));
    } else {
      QuietInert("");
    }
  }

  lemma StartTimeFieldInert(t: Task)
    requires t.scheduled.Some? && (DateForm(t.scheduled.value) || DateTimeForm(t.scheduled.value))
    ensures Inert(StartTimeField(t))
  {
    var s := t.scheduled.value;
    if Present(t.scheduled) && !IsDateIso(s) {
      QuietInert("  ");
      assert From11(s) == s[11..];
      forall k | 0 <= k < |From11(s)|
        ensures From11(s)[k] != '[' && From11(s)[k] != ScheduledEmoji
      {
        IsoCharsPlain(s, k + 11);
      }
      FieldInert("startTime", From11(s));
      InertConcat("  ", FieldText("startTime", From11(s)));
    } else {
      QuietInert("");
    }
  }

  /** Dataview dialect: on the written line, whatever its priority part,
      the scheduled pattern first matches the `[scheduled:: …]` field and
      captures the scheduled text. */
  lemma DataviewLineMatch(t: Task, priority: string)
    requires ScheduleQuiet(t)
    requires t.scheduled.Some? && (DateForm(t.scheduled.value) || DateTimeForm(t.scheduled.value))
    ensures ScheduledMatch(HeadText(t) + FieldsText(SortedFields(t)) + DatesText(t, Dataview)
                           + MarksText(t, Dataview, priority)) == Some(t.scheduled.value)
  {
    var s := t.scheduled.value;
    OpeningInert(t);
    assert DatesText(t, Dataview) == ScheduledField(t) + DueField(t) + LengthField(t);
    ScheduledFieldShape(t);
    FieldAfterOpening(HeadText(t) + FieldsText(SortedFields(t)), s, DueField(t), LengthField(t),
                      MarksText(t, Dataview, priority));
  }

  lemma ScheduledFieldShape(t: Task)
    requires Present(t.scheduled)
    ensures ScheduledField(t) == "  " + (ScheduledOpen + t.scheduled.value + "]")
  {
  }

  /** After passed-over text, two spaces and a `[scheduled:: s]` field are
      matched with `s`. */
  lemma FieldAfterOpening(opening: string, s: string, due: string, len: string, marks: string)
    requires Inert(opening) && (DateForm(s) || DateTimeForm(s))
    ensures ScheduledMatch(opening + ("  " + (ScheduledOpen + s + "]") + due + len) + marks) == Some(s)
  {
    var rest := due + len + marks;
    var x := "  " + (ScheduledOpen + s + "]" + rest);
    RegroupField(opening, "  ", ScheduledOpen + s + "]", due, len, marks);
    InertSkip(opening, x);
    SpacedFieldMatched(s, rest);
  }

  lemma RegroupField(o: string, sp: string, f: string, due: string, len: string, m: string)
    ensures o + (sp + f + due + len) + m == o + (sp + (f + (due + len + m)))
  {
  }

  lemma InertSkip(p: string, tail: string)
    requires Inert(p)
    ensures ScheduledMatch(p + tail) == ScheduledMatch(tail)
  {
  }

  /** Two spaces, then a `[scheduled:: s]` field. */
  lemma SpacedFieldMatched(s: string, rest: string)
    requires DateForm(s) || DateTimeForm(s)
    ensures ScheduledMatch("  " + (ScheduledOpen + s + "]" + rest)) == Some(s)
  {
    QuietInert("  ");
    InertSkip("  ", ScheduledOpen + s + "]" + rest);
    ScheduledFieldMatched(s, rest);
  }

  /** Tasks dialect: on the written line, whatever its priority part (when
      that is empty or opens with a space), the scheduled pattern first
      matches the scheduled marker and captures the date after it. */
  lemma TasksLineMatch(t: Task, priority: string)
    requires ScheduleQuiet(t) && SpaceLed(priority)
    requires t.scheduled.Some? && (DateForm(t.scheduled.value) || DateTimeForm(t.scheduled.value))
    ensures ScheduledMatch(HeadText(t) + FieldsText(SortedFields(t)) + DatesText(t, TasksPlugin)
                           + MarksText(t, TasksPlugin, priority)) == Some(Head10(t.scheduled.value))
  {
    var s := t.scheduled.value;
    TasksOpeningInert(t);
    ScheduledMarkerShape(t);
    TasksAfterMarker(t, priority);
    MarkerAfterOpening(HeadText(t) + FieldsText(SortedFields(t)), LengthField(t), StartTimeField(t),
                       Head10(s), DueMarker(t), MarksText(t, TasksPlugin, priority));
  }

  lemma TasksOpeningInert(t: Task)
    requires ScheduleQuiet(t)
    requires t.scheduled.Some? && (DateForm(t.scheduled.value) || DateTimeForm(t.scheduled.value))
    ensures Inert(HeadText(t) + FieldsText(SortedFields(t)) + (LengthField(t) + StartTimeField(t)))
  {
    OpeningInert(t);
    TasksTimeFieldsInert(t);
    InertConcat(HeadText(t) + FieldsText(SortedFields(t)), LengthField(t) + StartTimeField(t));
  }

  /** The Tasks-dialect scheduled part: the start-time field, a space, the
      marker and the date of the scheduled value. */
  lemma ScheduledMarkerShape(t: Task)
    requires t.scheduled.Some? && (DateForm(t.scheduled.value) || DateTimeForm(t.scheduled.value))
    ensures DatesText(t, TasksPlugin) == LengthField(t) + ScheduledMarker(t) + DueMarker(t)
    ensures ScheduledMarker(t) == StartTimeField(t) + (" " + ([ScheduledEmoji] + " " + Head10(t.scheduled.value)))
    ensures DateForm(Head10(t.scheduled.value))
  {
  }

  /** After passed-over text, a space, the scheduled marker and a date
      followed by nothing or a space are matched with the date. */
  lemma MarkerAfterOpening(opening: string, len: string, st: string, d: string, due: string, marks: string)
    requires Inert(opening + (len + st)) && DateForm(d) && SpaceLed(due + marks)
    ensures ScheduledMatch(opening + (len + (st + (" " + ([ScheduledEmoji] + " " + d))) + due) + marks) == Some(d)
  {
    var marker := [ScheduledEmoji] + " " + d;
    var x := " " + (marker + (due + marks));
    RegroupMarker(opening, len, st, " ", marker, due, marks);
    InertSkip(opening + (len + st), x);
    SpacedMarkerMatched(d, due + marks);
  }

  lemma RegroupMarker(o: string, len: string, st: string, sp: string, mk: string, due: string, m: string)
    ensures o + (len + (st + (sp + mk)) + due) + m == o + (len + st) + (sp + (mk + (due + m)))
  {
  }

  /** A space, then the scheduled marker and its date. */
  lemma SpacedMarkerMatched(d: string, after: string)
    requires DateForm(d) && SpaceLed(after)
    ensures ScheduledMatch(" " + ([ScheduledEmoji] + " " + d + after)) == Some(d)
  {
    QuietInert(" ");
    InertSkip(" ", [ScheduledEmoji] + " " + d + after);
    ScheduledMarkerMatched(d, after);
  }

  /** What follows the scheduled date in the Tasks dialect is empty or
      opens with a space. */
  lemma TasksAfterMarker(t: Task, priority: string)
    requires SpaceLed(priority)
    ensures SpaceLed(DueMarker(t) + MarksText(t, TasksPlugin, priority))
  {
    var st, cr, co := StartMark(t, TasksPlugin), CreatedMark(t, TasksPlugin), CompletionMark(t, TasksPlugin);
    assert SpaceLed(st) && SpaceLed(cr) && SpaceLed(co) && SpaceLed(DueMarker(t));
    SpaceLedConcat(st, cr);
    SpaceLedConcat(st + cr, priority);
    SpaceLedConcat(st + cr + priority, co);
    SpaceLedConcat(DueMarker(t), st + cr + priority + co);
  }

  lemma SpaceLedConcat(a: string, b: string)
    requires SpaceLed(a) && SpaceLed(b)
    ensures SpaceLed(a + b)
  {
  }

  /** A record whose scheduled value is ISO text that luxon accepts. */
  predicate ScheduledIso(t: Task)
  {
    t.scheduled.Some? && (DateForm(t.scheduled.value) || DateTimeForm(t.scheduled.value))
    && FromIso(t.scheduled.value).Some?
  }

  /** Dataview dialect: the line `taskToText` writes, read back with the
      DateTime Dataview parses from its `[scheduled:: s]` field (and no
      `startTime`, which this dialect does not write), gives the record's
      scheduled text back, date-only exactly when it was. */
  lemma DataviewScheduledRoundTrip(t: Task, item: RawItem)
    requires ValidItem(item) && ScheduleQuiet(t) && ScheduledIso(t)
    requires item.text == TaskLineAsWritten(t, Dataview)
    requires item.scheduled == FromIso(t.scheduled.value) && item.startTime == ""
    ensures ParseScheduled(item) == t.scheduled
  {
    var s := t.scheduled.value;
    DataviewLineMatch(t, PriorityTextAsWritten(t.priority, Dataview));
    var m := FromIso(s).value;
    assert ScheduledBase(item) == Some((Some(m), false));
    ScheduledFromBase(item, m, false);
    if DateForm(s) {
      DateFormPrints(s);
    } else {
      DateTimeFormPrints(s);
    }
  }

  /** A date-only text whose base DateTime is its own parse, read without
      a `startTime`, comes back as itself when the base is date-only or the
      scheduled text found on the line is that date. */
  lemma DateBaseReadsBack(item: RawItem, s: string, baseIsDate: bool)
    requires ValidItem(item)
    requires DateForm(s) && FromIso(s).Some?
    requires ScheduledBase(item) == Some((FromIso(s), baseIsDate))
    requires item.startTime == ""
    requires baseIsDate || ScheduledMatch(item.text) == Some(s)
    ensures ParseScheduled(item) == Some(s)
  {
    ScheduledFromBase(item, FromIso(s).value, baseIsDate);
    DateFormPrints(s);
  }

  /** A date-and-time text whose base DateTime is midnight of its date and
      whose `startTime` is its `hh:mm` part comes back as itself. */
  lemma TimedBaseReadsBack(item: RawItem, s: string, baseIsDate: bool)
    requires ValidItem(item)
    requires DateTimeForm(s) && FromIso(s).Some?
    requires ScheduledBase(item) == Some((FromIso(s[..10]), baseIsDate))
    requires item.startTime == From11(s)
    ensures ParseScheduled(item) == Some(s)
  {
    var m := FromIso(s).value;
    var h := DigitsValue(s[11..13]);
    var mi := DigitsValue(s[14..16]);
    DateTimeFormMoment(s);
    TimeOfFormReadsBack(s);
    var base := Moment(m.date, 0);
    ScheduledFromBase(item, base, baseIsDate);
    assert TimeOfDay(item.startTime) == Some((h, mi));
    SetTimeSameDay(base, h, mi);
    assert SetTime(base, h, mi) == m;
    DateTimeFormPrints(s);
  }

  /** Full-calendar dialect: the `[date:: …]` and, for a time, the
      `[startTime:: …]` fields Dataview reads from the written line give the
      record's scheduled text back. The base comes from `date`, so it is
      date-only and the scheduled pattern is not consulted: whatever the
      line holds, the result is the same. */
  lemma FullCalendarScheduledRoundTrip(t: Task, item: RawItem)
    requires ValidItem(item) && ScheduledIso(t)
    requires item.scheduled.None? && item.date == Head10(t.scheduled.value)
    requires item.startTime == StartTimeValue(t)
    ensures ParseScheduled(item) == t.scheduled
  {
    var s := t.scheduled.value;
    if DateForm(s) {
      assert item.date == s;
      DateBaseReadsBack(item, s, true);
    } else {
      assert item.date == s[..10];
      TimedBaseReadsBack(item, s, true);
    }
  }

  /** The value of the `[startTime:: …]` field written for a scheduled
      time that is not date-only, or nothing. */
  function StartTimeValue(t: Task): (r: string)
    requires t.scheduled.Some?
    ensures DateTimeForm(t.scheduled.value) ==> r == t.scheduled.value[11..]
    ensures DateForm(t.scheduled.value) ==> r == ""
  {
    if IsDateIso(t.scheduled.value) then "" else From11(t.scheduled.value)
  }

  /** Tasks dialect: the line `taskToText` writes, read back with the
      DateTime Dataview parses from the date after its scheduled marker and,
      for a time, its `[startTime:: …]` field, gives the record's scheduled
      text back. */
  lemma TasksScheduledRoundTrip(t: Task, item: RawItem)
    requires ValidItem(item) && ScheduleQuiet(t) && ScheduledIso(t)
    requires item.text == TaskLineAsWritten(t, TasksPlugin)
    requires item.scheduled == FromIso(Head10(t.scheduled.value))
    requires item.startTime == StartTimeValue(t)
    ensures ParseScheduled(item) == t.scheduled
  {
    var s := t.scheduled.value;
    if DateForm(s) {
      assert Head10(s) == s;
      TasksLineMatch(t, PriorityTextAsWritten(t.priority, TasksPlugin));
      DateBaseReadsBack(item, s, false);
    } else {
      assert Head10(s) == s[..10];
      DateTimeFormMoment(s);
      TimedBaseReadsBack(item, s, false);
    }
  }

  /** Characters that can stand in an `ISO_MATCH` text. */
  lemma IsoCharsPlain(s: string, k: nat)
    requires (DateForm(s) || DateTimeForm(s)) && k < |s|
    ensures !IsSpace(s[k]) && s[k] != ']' && !IsLineTerminator(s[k])
    ensures s[k] != '[' && s[k] != ScheduledEmoji
    ensures IsDigit(s[k]) || s[k] == '-' || s[k] == 'T' || s[k] == ':'
  {
    if DateTimeForm(s) && k >= 10 {
      if k == 10 || k == 13 {
      } else if k < 13 {
        assert s[k] == s[11..13][k - 11];
      } else {
        assert s[k] == s[14..16][k - 14];
      }
    } else {
      var d := if DateForm(s) then s else s[..10];
      assert s[k] == d[k];
      assert IsDigit(d[k]) || d[k] == '-' by {
        if k < 4 {
          assert d[k] == d[0..4][k];
        } else if 5 <= k < 7 {
          assert d[k] == d[5..7][k - 5];
        } else if 8 <= k {
          assert d[k] == d[8..10][k - 8];
        }
      }
    }
  }

  lemma {:induction false} LazyFieldStopsAt(t: string, k: nat, n: nat)
    requires k <= n < |t| && t[n] == ']'
    requires forall j :: k <= j < n ==> !IsSpace(t[j]) && t[j] != ']' && !IsLineTerminator(t[j])
    ensures LazyField(t, k) == Some(t[..n])
    decreases n - k
  {
    if k < n {
      assert SkipSpaces(t[k..]) == t[k..];
      LazyFieldStopsAt(t, k + 1, n);
    } else {
      assert t[k..][0] == ']' && !IsSpace(']');
    }
  }

  /** The scheduled pattern captures the value of a `[scheduled:: …]` field
      that opens the text. */
  lemma ScheduledFieldMatched(s: string, rest: string)
    requires DateForm(s) || DateTimeForm(s)
    ensures ScheduledMatch(ScheduledOpen + s + "]" + rest) == Some(s)
  {
    var text := ScheduledOpen + s + "]" + rest;
    var t := s + "]" + rest;
    assert StartsWith(text, ScheduledOpen);
    assert text[|ScheduledOpen|..] == t;
    forall j | 0 <= j < |s|
      ensures !IsSpace(t[j]) && t[j] != ']' && !IsLineTerminator(t[j])
    {
      IsoCharsPlain(s, j);
    }
    LazyFieldStopsAt(t, 0, |s|);
    assert t[..|s|] == s;
  }

  /** The scheduled pattern captures the date after a scheduled marker that
      opens the text, when no time follows the date. */
  lemma ScheduledMarkerMatched(d: string, rest: string)
    requires DateForm(d)
    requires rest == [] || rest[0] == ' '
    ensures ScheduledMatch([ScheduledEmoji] + " " + d + rest) == Some(d)
  {
    var text := [ScheduledEmoji] + " " + d + rest;
    assert !StartsWith(text, ScheduledOpen) by {
      assert text[0] != ScheduledOpen[0];
    }
    MarkedIsoHere(ScheduledEmoji, d, rest);
  }
}
