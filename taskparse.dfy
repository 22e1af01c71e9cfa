/**
 * `textToTask`: the field-resolution helpers that turn a Dataview task item
 * into a task record (src/services/obsidianApi.ts:81-241).
 */
module TaskParse {
  import opened Text
  import opened IsoTime
  import opened Enums
  import opened TaskRecord

  /** `parseId`: the section path without its `.md` suffix, `::`, the line. */
  function ParseId(sectionPath: string, line: int): (r: string)
  {
    StripMd(sectionPath) + "::" + IntText(line)
  }

  lemma NatTextInjective(a: nat, b: nat)
    requires NatText(a) == NatText(b)
    ensures a == b
  {
    NatTextValue(a);
    NatTextValue(b);
  }

  lemma IntTextInjective(a: int, b: int)
    requires IntText(a) == IntText(b)
    ensures a == b
  {
    IntTextSign(a);
    IntTextSign(b);
    if a < 0 {
      assert b < 0;
      assert NatText(-a) == IntText(a)[1..];
      NatTextInjective(-a, -b);
    } else {
      assert b >= 0;
      NatTextInjective(a, b);
    }
  }

  lemma IntTextSign(a: int)
    ensures |IntText(a)| > 0 && (IntText(a)[0] == '-' <==> a < 0)
  {
    if a >= 0 {
      assert IsDigit(NatText(a)[0]);
    }
  }

  lemma IntTextHasNoColon(n: int)
    ensures ':' !in IntText(n)
  {
    var t := IntText(n);
    forall k | 0 <= k < |t|
      ensures t[k] != ':'
    {
      if n < 0 {
        assert k == 0 || IsDigit(NatText(-n)[k - 1]);
      } else {
        assert IsDigit(NatText(n)[k]);
      }
    }
  }

  /** In `a1 + "::" + n1 == a2 + "::" + n2` with a shorter `n1`, the colon
      before `n1` falls inside `n2`. */
  lemma ColonBeforeLine(a1: string, n1: string, a2: string, n2: string)
    requires a1 + "::" + n1 == a2 + "::" + n2 && |n1| < |n2|
    ensures ':' in n2
  {
    var s := a1 + "::" + n1;
    var k := |n2| - |n1| - 1;
    assert s[|a1| + 1] == ':';
    assert s[|a2| + 2 + k] == n2[k];
  }

  /** An id determines the section path (up to its `.md` suffix) and the
      line: the line number is what follows the last colon. */
  lemma {:induction false} ParseIdInjective(p1: string, l1: int, p2: string, l2: int)
    requires ParseId(p1, l1) == ParseId(p2, l2)
    ensures StripMd(p1) == StripMd(p2) && l1 == l2
  {
    var s := ParseId(p1, l1);
    var n1 := IntText(l1);
    var n2 := IntText(l2);
    IntTextHasNoColon(l1);
    IntTextHasNoColon(l2);
    if |n1| < |n2| {
      ColonBeforeLine(StripMd(p1), n1, StripMd(p2), n2);
      assert false;
    } else if |n2| < |n1| {
      ColonBeforeLine(StripMd(p2), n2, StripMd(p1), n1);
      assert false;
    }
    assert n1 == s[|s| - |n1|..] == n2;
    IntTextInjective(l1, l2);
    assert StripMd(p1) == s[..|s| - |n1| - 2] == StripMd(p2);
  }

  /** The ids of the children without a completion date, in order. */
  function ChildIds(children: seq<Child>): (r: seq<string>)
    ensures |r| <= |children|
    ensures forall c :: c in children && !c.hasCompletion ==> ParseId(c.sectionPath, c.line) in r
    ensures forall id :: id in r ==>
      exists c :: c in children && !c.hasCompletion && ParseId(c.sectionPath, c.line) == id
  {
    if children == [] then []
    else
      var c := children[0];
      var tail := ChildIds(children[1..]);
      assert forall x :: x in children[1..] ==> x in children;
      if c.hasCompletion then tail else [ParseId(c.sectionPath, c.line)] + tail
  }

  /** One child gives its id exactly when it has no completion date. */
  lemma ChildIdsSingle(c: Child)
    ensures ChildIds([c]) == if c.hasCompletion then [] else [ParseId(c.sectionPath, c.line)]
  {
    assert [c][1..] == [];
  }

  /** The ids of two runs of children are the first run's followed by the
      second's: the order of the children is kept. */
  lemma {:induction false} ChildIdsAppend(a: seq<Child>, b: seq<Child>)
    ensures ChildIds(a + b) == ChildIds(a) + ChildIds(b)
    decreases |a|
  {
    if a == [] {
      assert a + b == b;
    } else {
      assert (a + b)[1..] == a[1..] + b;
      ChildIdsAppend(a[1..], b);
    }
  }

  // ---- the regular expressions the helpers match against the item text ----

  predicate IsLineTerminator(c: char)
  {
    c == '\n' || c == '\r' || c == '\U{2028}' || c == '\U{2029}'
  }

  predicate StartsWith(s: string, prefix: string)
  {
    |prefix| <= |s| && s[..|prefix|] == prefix
  }

  /** `ISO_MATCH` anchored at the start of `t`: the time part is optional
      and taken greedily. */
  function IsoPrefix(t: string): (r: Option<string>)
    ensures r.Some? ==> StartsWith(t, r.value)
    ensures r.Some? ==> DateForm(r.value) || DateTimeForm(r.value)
  {
    if |t| >= 16 && DateTimeForm(t[..16]) then Some(t[..16])
    else if |t| >= 10 && DateForm(t[..10]) then Some(t[..10])
    else None
  }

  /** `<emoji> ?(ISO_MATCH)` anchored at the start of `t`: the captured date. */
  function MarkedIso(t: string, emoji: char): Option<string>
  {
    if t == [] || t[0] != emoji then None
    else
      var u := t[1..];
      IsoPrefix(if u != [] && u[0] == ' ' then u[1..] else u)
  }

  /** `text.match(/<emoji> ?(ISO_MATCH)/)?.[1]`: the date after the leftmost
      marker that is followed by one. */
  function MarkedDate(text: string, emoji: char): (r: Option<string>)
    ensures r.Some? ==> emoji in text
    ensures r.Some? ==> DateForm(r.value) || DateTimeForm(r.value)
    decreases |text|
  {
    if text == [] then None
    else
      var here := MarkedIso(text, emoji);
      if here.Some? then here else MarkedDate(text[1..], emoji)
  }

  /** `(.*?)\s*\]` anchored at the start of `t`, trying capture lengths from
      `k` up: the shortest capture without a line terminator after which
      only whitespace stands before a `]`. */
  function LazyField(t: string, k: nat): (r: Option<string>)
    requires k <= |t|
    ensures r.Some? ==> StartsWith(t, r.value) && |r.value| >= k
    decreases |t| - k
  {
    var rest := SkipSpaces(t[k..]);
    if rest != [] && rest[0] == ']' then Some(t[..k])
    else if k < |t| && !IsLineTerminator(t[k]) then LazyField(t, k + 1)
    else None
  }

  const ScheduledOpen: string := "[scheduled:: "

  /** `text.match(/\[scheduled:: (.*?)\s*\]|⏳ ?(ISO_MATCH)/)`, reduced to the
      capture `lengthCheck?.[1] ?? lengthCheck?.[2]`: at the leftmost
      position where either alternative matches, the first alternative that
      does. */
  function ScheduledMatch(text: string): Option<string>
    decreases |text|
  {
    if text == [] then None
    else
      var field := if StartsWith(text, ScheduledOpen) then LazyField(text[|ScheduledOpen|..], 0) else None;
      if field.Some? then field
      else
        var marked := MarkedIso(text, ScheduledEmoji);
        if marked.Some? then marked else ScheduledMatch(text[1..])
  }

  /** `path.match(new RegExp(`${ISO_MATCH}$`))?.[0]`: the leftmost `ISO_MATCH`
      that ends the path. */
  function TrailingIso(path: string): (r: Option<string>)
    ensures r.Some? ==> EndsWith(path, r.value)
    ensures r.Some? ==> DateForm(r.value) || DateTimeForm(r.value)
  {
    if |path| >= 16 && DateTimeForm(path[|path| - 16..]) then Some(path[|path| - 16..])
    else if |path| >= 10 && DateForm(path[|path| - 10..]) then Some(path[|path| - 10..])
    else None
  }

  /** `s.split(':').map(parseInt)` destructured into `[hour, minute]`, when
      neither is NaN. Empty text is falsy and never parsed. */
  function TimeOfDay(s: string): (r: Option<(int, int)>)
    ensures r.Some? ==> s != ""
  {
    if s == "" then None
    else
      var parts := Split(s, ':');
      if |parts| >= 2 && ParseInt(parts[0]).Some? && ParseInt(parts[1]).Some? then
        Some((ParseInt(parts[0]).value, ParseInt(parts[1]).value))
      else None
  }

  // ---- parseScheduled ----

  /** The DateTime `parseScheduled` starts from and whether it is date-only:
      the explicit `scheduled`, else `date`, else (for a top-level task
      without `date`) the ISO date ending the section path. `None` when none
      applies; an inner `None` is an invalid DateTime. */
  function ScheduledBase(item: RawItem): Option<(Option<Moment>, bool)>
  {
    if item.scheduled.Some? then Some((item.scheduled, false))
    else
      var date :=
        if item.date != "" then Some(item.date)
        else if !item.hasParent then TrailingIso(StripMd(item.sectionPath))
        else None;
      if date.None? then None else Some((FromIso(date.value), true))
  }

  /** `parseScheduled` (src/services/obsidianApi.ts:133-177). */
  function ParseScheduled(item: RawItem): (r: Option<string>)
    requires ValidItem(item)
  {
    match ScheduledBase(item)
    case None => None
    case Some((moment, baseIsDate)) =>
      var found := ScheduledMatch(item.text);
      var isDate := baseIsDate || (found.Some? && |found.value| == 10);
      var time := TimeOfDay(item.startTime);
      var moment' := if time.Some? && moment.Some? then Some(SetTime(moment.value, time.value.0, time.value.1)) else moment;
      var isDate' := if time.Some? then false else isDate;
      match moment'
      case None => None
      case Some(m) => Some(if isDate' then DateText(m.date) else DateTimeText(m))
  }

  /** From a valid base DateTime, the result is the base date alone when it
      is date-only (by its source or by a ten-character scheduled text) and
      there is no `startTime`; with a `startTime` it is the date and time
      that sets. */
  lemma ScheduledFromBase(item: RawItem, m: Moment, baseIsDate: bool)
    requires ValidItem(item)
    requires ScheduledBase(item) == Some((Some(m), baseIsDate))
    ensures ValidMoment(m)
    ensures var found := ScheduledMatch(item.text);
      TimeOfDay(item.startTime).None? ==>
        ParseScheduled(item) == Some(if baseIsDate || (found.Some? && |found.value| == 10)
                                     then DateText(m.date) else DateTimeText(m))
    ensures var time := TimeOfDay(item.startTime);
      time.Some? ==> ParseScheduled(item) == Some(DateTimeText(SetTime(m, time.value.0, time.value.1)))
  {
  }

  /** An explicit `scheduled` has precedence: `date`, the section path and
      the parent link then make no difference. */
  lemma ScheduledPrecedence(a: RawItem, b: RawItem)
    requires ValidItem(a) && ValidItem(b)
    requires a.scheduled.Some? && a.scheduled == b.scheduled
    requires a.text == b.text && a.startTime == b.startTime
    ensures ParseScheduled(a) == ParseScheduled(b)
    ensures ParseScheduled(a).Some?
  {
  }

  /** With no `scheduled` and no `date`, a top-level task of a daily note
      takes the date ending the note's path, date-only; a subtask takes
      nothing. */
  lemma DailyNoteFallback(item: RawItem, d: string)
    requires ValidItem(item)
    requires item.scheduled.None? && item.date == ""
    requires TrailingIso(StripMd(item.sectionPath)) == Some(d) && DateForm(d) && FromIso(d).Some?
    requires TimeOfDay(item.startTime).None?
    ensures item.hasParent ==> ParseScheduled(item).None?
    ensures !item.hasParent ==> ParseScheduled(item) == Some(d)
  {
    if !item.hasParent {
      DateFormPrints(d);
    }
  }

  /** A `startTime` whose two parts are numbers sets the hour and minute of
      the base date and forces the date-and-time form. */
  lemma StartTimeForcesTime(item: RawItem, m: Moment, hour: int, minute: int)
    requires ValidItem(item)
    requires ScheduledBase(item).Some? && ScheduledBase(item).value.0 == Some(m)
    requires TimeOfDay(item.startTime) == Some((hour, minute))
    requires 0 <= hour < 24 && 0 <= minute < 60 && 0 <= m.date.year <= 9999
    ensures ParseScheduled(item) == Some(DateTimeText(Moment(m.date, hour * 60 + minute)))
    ensures DateTimeForm(ParseScheduled(item).value)
  {
    assert ValidMoment(m);
    SetTimeSameDay(m, hour, minute);
    DateTimeTextParses(Moment(m.date, hour * 60 + minute));
  }

  // ---- parseLength ----

  /** `parseLength` (src/services/obsidianApi.ts:109-131). The end time is
      set on the day of the start, so the difference in minutes is the end's
      time of day minus the start's. */
  function ParseLength(item: RawItem, scheduled: Option<string>): Option<Length>
  {
    if item.length.Some? then item.length
    else if item.endTime != "" && Present(scheduled) then
      match (TimeOfDay(item.endTime), FromIso(scheduled.value))
      case (Some((hour, minute)), Some(start)) =>
        var parts := ShiftTo(hour * 60 + minute - start.minute);
        if parts.0 >= 0 && parts.1 >= 0 then Some(Length(parts.0, parts.1)) else None
      case _ => None
    else None
  }

  /** An explicit length wins over `endTime`. */
  lemma ExplicitLengthWins(item: RawItem, scheduled: Option<string>)
    requires item.length.Some?
    ensures ParseLength(item, scheduled) == item.length
  {
  }

  /** Without an explicit length, a numeric `endTime` gives the time from the
      start to that time of day, split into hours and minutes, and nothing
      when that time is before the start. */
  lemma EndTimeLength(item: RawItem, s: string, start: Moment, hour: int, minute: int)
    requires item.length.None?
    requires FromIso(s) == Some(start)
    requires TimeOfDay(item.endTime) == Some((hour, minute))
    ensures var r := ParseLength(item, Some(s));
      (r.Some? <==> hour * 60 + minute >= start.minute)
      && (r.Some? ==> r.value.hour * 60 + r.value.minute == hour * 60 + minute - start.minute
                      && 0 <= r.value.minute < 60 && r.value.hour >= 0)
  {
    assert s != "";
  }

  /** Missing inputs or a non-numeric `endTime` give no length. */
  lemma NoLengthWithoutEnd(item: RawItem, scheduled: Option<string>)
    requires item.length.None?
    requires !Present(scheduled) || TimeOfDay(item.endTime).None?
    ensures ParseLength(item, scheduled).None?
  {
  }

  // ---- parseDateKey ----

  /** `parseDateKey`: the date of the DateTime Dataview parsed, else the
      date after the key's Tasks marker in the text. */
  function ParseDateKey(field: Option<Moment>, text: string, emoji: char): (r: Option<string>)
    requires field.Some? ==> ValidMoment(field.value)
    ensures field.Some? && 0 <= field.value.date.year <= 9999 ==>
      r.Some? && DateForm(r.value) && FromIso(r.value) == Some(Moment(field.value.date, 0))
    ensures field.None? && r.Some? ==> emoji in text && (DateForm(r.value) || DateTimeForm(r.value))
  {
    if field.Some? then
      var d := field.value.date;
      if 0 <= d.year <= 9999 then DateTextParses(d); Some(DateText(d)) else Some(DateText(d))
    else MarkedDate(text, emoji)
  }

  /** A date Dataview parsed from a date text gives that text back. */
  lemma FieldDateReadsBack(d: string, text: string, emoji: char)
    requires DateForm(d) && FromIso(d).Some?
    ensures ParseDateKey(FromIso(d), text, emoji) == Some(d)
  {
    DateFormPrints(d);
  }

  /** With no parsed date, a marker and its date in the text are read back. */
  lemma MarkedDateKeyReadsBack(before: string, emoji: char, d: string, after: string)
    requires DateForm(d)
    requires emoji !in before
    requires after == [] || after[0] == ' '
    ensures ParseDateKey(None, before + [emoji] + " " + d + after, emoji) == Some(d)
  {
    MarkedDateReadsBack(before, emoji, d, after);
  }

  /** With neither a parsed date nor the marker in the text, there is no date. */
  lemma UnmarkedDateKey(text: string, emoji: char)
    requires emoji !in text
    ensures ParseDateKey(None, text, emoji).None?
  {
  }

  /** A date written after a marker is read back when no marker with a date
      comes earlier and the date is not followed by a time. */
  lemma MarkedDateReadsBack(before: string, emoji: char, d: string, after: string)
    requires DateForm(d)
    requires emoji !in before
    requires after == [] || after[0] == ' '
    ensures MarkedDate(before + [emoji] + " " + d + after, emoji) == Some(d)
  {
    var tail := [emoji] + " " + d + after;
    assert before + [emoji] + " " + d + after == before + tail;
    MarkedDateSkips(before, tail, emoji);
    MarkedDateHere(emoji, d, after);
  }

  /** Text without the marker in front of `tail` changes nothing. */
  lemma {:induction false} MarkedDateSkips(before: string, tail: string, emoji: char)
    requires emoji !in before
    ensures MarkedDate(before + tail, emoji) == MarkedDate(tail, emoji)
    decreases |before|
  {
    if before == [] {
      assert before + tail == tail;
    } else {
      DropFirst(before, tail);
      assert before[0] != emoji;
      MarkedDateSkips(before[1..], tail, emoji);
    }
  }

  /** The marker at the very start is matched with its date. */
  lemma MarkedDateHere(emoji: char, d: string, after: string)
    requires DateForm(d)
    requires after == [] || after[0] == ' '
    ensures MarkedDate([emoji] + " " + d + after, emoji) == Some(d)
  {
    MarkedIsoHere(emoji, d, after);
  }

  /** The marker, a space and a date followed by nothing or a space match
      `<emoji> ?(ISO_MATCH)` right there. */
  lemma MarkedIsoHere(emoji: char, d: string, after: string)
    requires DateForm(d)
    requires after == [] || after[0] == ' '
    ensures MarkedIso([emoji] + " " + d + after, emoji) == Some(d)
  {
    var text := [emoji] + " " + d + after;
    assert text[0] == emoji && text[1..][0] == ' ';
    assert text[1..][1..] == d + after;
    DateThenSpace(d, after);
  }

  /** A date followed by nothing or a space is matched without a time. */
  lemma DateThenSpace(d: string, after: string)
    requires DateForm(d)
    requires after == [] || after[0] == ' '
    ensures IsoPrefix(d + after) == Some(d)
  {
    var t := d + after;
    assert t[..10] == d;
    if |t| >= 16 {
      assert t[..16][10] == after[0];
    }
  }

  lemma DropFirst(a: string, b: string)
    requires a != []
    ensures (a + b)[0] == a[0] && (a + b)[1..] == a[1..] + b
  {
  }

  // ---- parsePriority ----

  /** Whether the `priority` value is falsy (absent, 0 or the empty string). */
  predicate Falsy(p: PriorityValue)
  {
    p.NoPriority? || (p.NumberPriority? && p.n == 0) || (p.KeyPriority? && p.key == "")
  }

  /** The first ranked marker, from position `i` on, that occurs in `text`. */
  function FirstMarker(text: string, i: nat): (r: Option<nat>)
    requires i <= |RankedEmoji|
    ensures r.Some? ==> i <= r.value < |RankedEmoji| && RankedEmoji[r.value] in text
    ensures r.Some? ==> forall j :: i <= j < r.value ==> RankedEmoji[j] !in text
    ensures r.None? ==> forall j :: i <= j < |RankedEmoji| ==> RankedEmoji[j] !in text
    decreases |RankedEmoji| - i
  {
    if i == |RankedEmoji| then None
    else if RankedEmoji[i] in text then Some(i)
    else FirstMarker(text, i + 1)
  }

  /** The priority `parsePriority` gives (src/services/obsidianApi.ts:193-210). */
  function PriorityOf(p: PriorityValue, text: string): (r: int)
    ensures p.NumberPriority? && p.n != 0 ==> r == p.n
    ensures p.KeyPriority? && p.key != "" && PriorityNumber(p.key).Some? ==> r == PriorityNumber(p.key).value
    ensures p.KeyPriority? && p.key != "" && PriorityNumber(p.key).None? ==> r == Default
    ensures Falsy(p) ==>
      (forall j :: 0 <= j < |RankedEmoji| ==> RankedEmoji[j] !in text) ==> r == Default
    ensures Falsy(p) ==> forall i :: 0 <= i < |RankedEmoji| ==>
      (RankedEmoji[i] in text && forall j :: 0 <= j < i ==> RankedEmoji[j] !in text) ==> r == RankedNumber[i]
  {
    if Falsy(p) then
      var m := FirstMarker(text, 0);
      if m.Some? then RankedNumber[m.value] else Default
    else if p.NumberPriority? then p.n
    else
      var n := PriorityNumber(p.key);
      if n.Some? then n.value else Default
  }

  /** `parsePriority` as the source runs it: a loop over the ranked markers. */
  method ParsePriority(p: PriorityValue, text: string) returns (r: int)
    ensures r == PriorityOf(p, text)
  {
    if Falsy(p) {
      var i := 0;
      while i < |RankedEmoji|
        invariant 0 <= i <= |RankedEmoji|
        invariant FirstMarker(text, 0) == FirstMarker(text, i)
      {
        if RankedEmoji[i] in text {
          return RankedNumber[i];
        }
        i := i + 1;
      }
      return Default;
    } else if p.NumberPriority? {
      return p.n;
    } else {
      var n := PriorityNumber(p.key);
      if n.Some? {
        return n.value;
      }
      return Default;
    }
  }

  // ---- textToTask ----

  /** `textToTask`: every field of the record from its helper. */
  function TextToTask(item: RawItem): Task
    requires ValidItem(item)
  {
    var scheduled := ParseScheduled(item);
    Task(
      id := ParseId(item.sectionPath, item.line),
      title := item.title,
      tags := item.tags,
      scheduled := scheduled,
      due := ParseDateKey(item.due, item.text, DueEmoji),
      start := ParseDateKey(item.start, item.text, StartEmoji),
      created := ParseDateKey(item.created, item.text, CreatedEmoji),
      completion := ParseDateKey(item.completion, item.text, CompletionEmoji),
      length := ParseLength(item, scheduled),
      priority := PriorityOf(item.priority, item.text),
      children := ChildIds(item.children),
      extraFields := item.extraFields,
      path := item.path,
      heading := item.heading,
      parent := None)
  }
}
