# Time Ruler planner core, modelled in Dafny

Time Ruler is an Obsidian plugin that shows the vault's tasks on a timeline.
This project models four parts of its core and proves properties about each.

- **The task codec.** `textToTask` turns a Dataview task item into the plugin's task record. Its helpers parse:
  - the id;
  - the scheduled time, read from a Dataview field, a full-calendar `date`/`startTime` pair, a Tasks-plugin ⏳ marker, or the daily-note file name;
  - the length, given directly or derived from an `endTime`;
  - the other emoji dates;
  - the priority.

  `taskToText` writes a record back as a Markdown line in one of three field dialects: `dataview`, `full-calendar` or `tasks`.
- **The task table.** `loadTasks` skips a reload when the serialised items are unchanged. Otherwise it:
  - builds the id-keyed table, where the last item with an id wins;
  - points each listed child at the task that lists it, where the last lister wins;
  - merges the newly seen file paths, sorted, into the saved heading order, each before the first entry that orders after it.

  `updateFileOrder` moves a file heading in front of another one. The planner is a class whose methods update the table, the heading order and the cached serialisation in place.
- **Drag and drop.** `onDragEnd` dispatches on the drop target and the drag payload. Its results are recorded as a log of store and plugin calls:
  - cancelling;
  - new-task drafts;
  - heading reorders;
  - deleting tasks with their children, with confirmation;
  - shifting today's timed tasks to a new time (the `now` handle);
  - length and time drags;
  - field patches.

  `onDragStart` records the payload.
- **The Hours timeline.** The component groups start-ordered blocks into top-level blocks, each holding the blocks that start before its end, and optionally extends zero-length blocks. It then draws filler spans around them. The model proves that the drawing covers the window edge to edge.

The project is organised in these modules:

- `Text`: string order, sorting, `uniq`, `parseInt` and number text.
- `Enums`: priority numbers and Tasks-plugin markers.
- `IsoTime`: calendar moments and ISO-8601 text.
- `TaskRecord`: the item and record types.
- `TaskParse`: `textToTask`.
- `TaskText`: `taskToText`.
- `RoundTrip`: lemmas relating the writer to the parser.
- `TaskTable`: `loadTasks`, `updateFileOrder` and the `Planner` class.
- `Dragging`: `onDragEnd` and `onDragStart`.
- `Hours`: the timeline grouping and fillers.

Loops in the source are methods with invariants, each proved equal to a specification function. The lemmas are stated about those functions.

## Model

| member | source | states |
|---|---|---|
| TaskParse.ParseIdInjective | src/services/obsidianApi.ts:105-107 | Two items get the same id only if their section paths agree once `.md` is stripped and their line numbers are equal; the `::` separator cannot be confused with a digit |
| TaskParse.ChildIds | src/services/obsidianApi.ts:222-225 | The child list holds the id of every child without a completion date, and only such ids, never more entries than there are children |
| TaskParse.ChildIdsSingle | src/services/obsidianApi.ts:222-225 | One child gives no id when it has a completion date, and exactly its own id otherwise |
| TaskParse.ChildIdsAppend | src/services/obsidianApi.ts:222-225 | The ids of two runs of children are the ids of the first run followed by those of the second: `flatMap` keeps the children's order, one entry per uncompleted child |
| TaskParse.ScheduledPrecedence | src/services/obsidianApi.ts:134-136 | When the item has a Dataview `scheduled` value, the result is defined and depends only on that value, the text and `startTime`; `date`, the file name and the parent flag are ignored |
| TaskParse.DailyNoteFallback | src/services/obsidianApi.ts:136-146 | With no `scheduled` and no `date`, a top-level item in a note whose path ends in an ISO date is scheduled on that date, while a nested item is not scheduled |
| TaskParse.ScheduledFromBase | src/services/obsidianApi.ts:149-177 | From the base moment: a numeric `startTime` sets the time of day and gives a date-time; otherwise the result is the date alone when the base came from a date or the text's scheduled match is 10 characters long, else the full date-time |
| TaskParse.StartTimeForcesTime | src/services/obsidianApi.ts:157-165 | A valid `startTime` hour and minute give a date-time in `YYYY-MM-DDTHH:MM` form on the base's day at that time |
| TaskParse.ExplicitLengthWins | src/services/obsidianApi.ts:112-114 | A Dataview `length` is returned unchanged, whatever `endTime` says |
| TaskParse.EndTimeLength | src/services/obsidianApi.ts:115-128 | Without a length, a numeric `endTime` gives a length exactly when it is not before the start. That length is the difference split into non-negative hours and minutes below 60 |
| TaskParse.NoLengthWithoutEnd | src/services/obsidianApi.ts:115-130 | Without a length, a missing scheduled value or a non-numeric `endTime` gives no length |
| TaskParse.ParseDateKey | src/services/obsidianApi.ts:180-191 | A Dataview date field in years 0-9999 gives an ISO date text that parses back to midnight of that field's day. Without the field, any result is an ISO date or date-time found after the key's emoji in the text |
| TaskParse.FieldDateReadsBack | src/services/obsidianApi.ts:180-183 | A Dataview field parsed from an ISO date text gives back exactly that text |
| TaskParse.MarkedDateKeyReadsBack | src/services/obsidianApi.ts:184-190 | Without the field, an ISO date written after the key's emoji and a space, with no earlier emoji of that key and followed by the end of the line or a space, is read back exactly |
| TaskParse.UnmarkedDateKey | src/services/obsidianApi.ts:184-190 | Without the field and without the key's emoji in the text, no date is read |
| TaskParse.MarkedDateReadsBack | src/services/obsidianApi.ts:185-187 | A marker followed by a space and an ISO date, with no earlier marker of the same kind, reads back as exactly that date |
| TaskParse.FirstMarker | src/services/obsidianApi.ts:197-206 | Finds the first priority marker present in the text in highest-to-lowest order, and reports none when none is present |
| TaskParse.PriorityOf | src/services/obsidianApi.ts:193-210 | A non-zero number is returned as is. A keyword maps through the keyword table, falling back to DEFAULT. A falsy value gives the priority of the highest-ranked marker in the text, or DEFAULT when there is none |
| TaskParse.ParsePriority | src/services/obsidianApi.ts:193-210 | The early-return loop over the five markers computes `PriorityOf` |
| TaskText.FieldsSortedByKey | src/services/obsidianApi.ts:341-345 | Extra fields are written in key order, and every field is written exactly once (a permutation) |
| TaskText.TaskToText | src/services/obsidianApi.ts:335-415 | The line built step by step through the two dialect switches, with the source's `task.priority && task.priority !== DEFAULT` guard, equals the declarative `TaskLineAsWritten` for that dialect |
| TaskText.LineOpensWithCheckbox | src/services/obsidianApi.ts:336-339 | Every line, as written and as corrected, starts with `- [x] ` when the task has a completion date and with `- [ ] ` otherwise |
| TaskText.LengthTextReadsBack | src/services/obsidianApi.ts:351-355 | The written `NhMm` length reads back as the same hours and minutes, and each unit appears exactly when it is non-zero |
| TaskText.PriorityText | src/services/obsidianApi.ts:398-399 | Corrected priority text: it is empty exactly when the priority is DEFAULT |
| TaskText.PriorityTextAsWritten | src/services/obsidianApi.ts:407-409 | The priority text as the source writes it is empty for DEFAULT and also for HIGHEST (0, which is falsy), and agrees with the corrected text otherwise |
| TaskText.LineAroundPriority | src/services/obsidianApi.ts:386-412 | The line as written and the corrected line differ only in the priority text between the start/created marks and the completion mark |
| RoundTrip.TasksPriorityRoundTrip | src/services/obsidianApi.ts:405-409 | For a task with marker-free text, the tasks-dialect line parses back, with no Dataview priority, to the task's priority for every priority HIGHEST..LOWEST |
| RoundTrip.HighestLostAsWritten | src/services/obsidianApi.ts:407-409 | As written, a HIGHEST task's tasks-dialect line parses back as DEFAULT, which differs from its priority |
| RoundTrip.KeywordPriorityRoundTrip | src/services/obsidianApi.ts:209 | The keyword written for each priority HIGHEST..LOWEST is non-empty and maps back to that priority |
| RoundTrip.EndTimeRoundTrip | src/services/obsidianApi.ts:366-372 | The written `endTime` gives the length back, as the same total in hours and minutes, when the task ends on its start day. When it ends on the next day, the length is lost |
| RoundTrip.DataviewScheduledRoundTrip | src/services/obsidianApi.ts:348 | For a task whose title, tags and extra fields hold no `[` or ⏳, the Dataview-dialect line, read with the `scheduled` DateTime Dataview parses from its `[scheduled:: …]` field, gives the scheduled date or date-time back, date-only exactly when it was |
| RoundTrip.FullCalendarScheduledRoundTrip | src/services/obsidianApi.ts:358-362 | A scheduled value written as `date` plus `startTime` reads back as the same text, whatever the line's text holds |
| RoundTrip.TasksScheduledRoundTrip | src/services/obsidianApi.ts:378-382 | For a task whose title, tags and extra fields hold no `[` or ⏳, the Tasks-dialect line, read with the DateTime Dataview parses from its ⏳ date and with its `startTime`, gives the scheduled text back |
| RoundTrip.DataviewLineMatch | src/services/obsidianApi.ts:149-154 | On the Dataview-dialect line of such a task, the leftmost match of the scheduled pattern is the written `[scheduled:: …]` field, and it captures the scheduled text |
| RoundTrip.TasksLineMatch | src/services/obsidianApi.ts:149-154 | On the Tasks-dialect line of such a task, the leftmost match of the scheduled pattern is the written ⏳ marker, and it captures the ten-character date |
| RoundTrip.FieldInert | src/services/obsidianApi.ts:149-154 | An inline field whose key is not `scheduled` and holds no `:`, and whose key and value hold no `[` or ⏳, starts no match of the scheduled pattern: what follows it is matched as if it were absent |
| RecordRoundTrip.PriorityReadsBack | src/services/obsidianApi.ts:193-210 | In each dialect, the priority read back from the written line, with the `priority` keyword Dataview reports, is the task's priority. The exception is HIGHEST, which the source's guard leaves unwritten and which reads back as DEFAULT |
| RecordRoundTrip.LengthReadsBack | src/services/obsidianApi.ts:109-131 | A written `[length:: …]` reads back as the task's length. A full-calendar `endTime` gives the length of the same total when the task ends on its start day. A zero length is not written and reads back as none |
| RecordRoundTrip.TaskLineReadsBack | src/services/obsidianApi.ts:212-241 | `textToTask` applied to the item Dataview gives for the line `taskToText` wrote for a plain task returns the task's scheduled text and priority (HIGHEST aside) in every dialect, its length (in the full-calendar dialect, when the task ends on its start day), and its due, start, created and completion dates |
| RecordRoundTrip.DatesReadBack | src/services/obsidianApi.ts:180-191 | For the line `taskToText` writes (obsidianApi.ts:350-411), each of the four date keys reads back as the date written, and as none when no date was written, whether Dataview supplies the field or, in the Tasks dialect, the emoji marker is searched |
| RoundTrip.ScheduledFieldMatched | src/services/obsidianApi.ts:149-154 | on `[scheduled:: s]`, the lazy field pattern yields exactly `s` when `s` is an ISO date or date-time |
| RoundTrip.ScheduledMarkerMatched | src/services/obsidianApi.ts:149-154 | on `⏳ d` followed by nothing or a space, the marker pattern yields the date `d` |
| IsoTime.FromIso | src/services/obsidianApi.ts:20 | Text is parsed only in the `YYYY-MM-DD` or `YYYY-MM-DDTHH:MM` form and always to a valid moment; a date alone is at midnight |
| IsoTime.DateTextParses | src/services/obsidianApi.ts:172 | An ISO date printed from a valid date has the date form and parses back to midnight of that date |
| IsoTime.DateTimeTextParses | src/services/obsidianApi.ts:173-177 | An ISO date-time printed without seconds or offset has the date-time form and parses back to the same moment |
| IsoTime.DateFormPrints | src/services/obsidianApi.ts:145 | A well-formed ISO date that parses prints back as the same text |
| IsoTime.DateTimeFormPrints | src/services/obsidianApi.ts:173-177 | A date-time that parses prints back as the same text |
| IsoTime.SetTimeSameDay | src/services/obsidianApi.ts:163 | Setting an in-range hour and minute keeps the day and sets the minute of day |
| IsoTime.ShiftTo | src/services/dragging.ts:97-101 | A minute difference splits into hours and minutes of the same total, with minutes below 60 in magnitude. Both parts are non-negative exactly when the difference is |
| Enums.MarkerTablesAgree | src/services/obsidianApi.ts:197-206 | The five ranked markers are distinct. Each is the marker written for its priority. The number-to-keyword table inverts the keyword-to-number table |
| TaskTable.TaskDict | src/services/obsidianApi.ts:267 | The table's keys are exactly the ids of the converted tasks, and each entry sits under its own id |
| TaskTable.TaskDictLastWins | src/services/obsidianApi.ts:267 | A task whose id does not occur later in the list is the table's entry for that id |
| TaskTable.LastLister | src/services/obsidianApi.ts:269-275 | No parent is found exactly when no task in key order lists the child. A parent found is the id of a listing task |
| TaskTable.Resolved | src/services/obsidianApi.ts:269-275 | Resolution keeps the key set and changes only the `parent` field of each task |
| TaskTable.ResolvedParent | src/services/obsidianApi.ts:269-275 | A task nobody lists keeps its record; a listed task's parent is the id of a task that lists it |
| TaskTable.ResolveParents | src/services/obsidianApi.ts:269-275 | The nested loops over tasks and their children compute `Resolved`, the last-lister-wins table |
| TaskTable.FirstGreater | src/services/obsidianApi.ts:283 | `findIndex` returns the first entry that orders after the file, or reports that there is none |
| TaskTable.MergeOnePlaces | src/services/obsidianApi.ts:282-285 | The file is spliced in once, after every entry not ordering after it and in front of the first entry that does |
| TaskTable.MergeAllMultiset | src/services/obsidianApi.ts:281-286 | The merged order holds exactly the old entries plus the new paths, counted with multiplicity |
| TaskTable.MergeAllKeepsOrder | src/services/obsidianApi.ts:281-286 | Removing the inserted paths from the merged order gives back the saved order |
| TaskTable.MergeAllAscending | src/services/obsidianApi.ts:281-286 | Merging into an ascending order yields an ascending order |
| TaskTable.MergeFileOrder | src/services/obsidianApi.ts:281-286 | The push/splice loop computes `MergeAll` |
| TaskTable.NewPaths | src/services/obsidianApi.ts:277-279 | The new paths are exactly the task paths not already in the order, sorted ascending |
| TaskTable.LoadedFileOrder | src/services/obsidianApi.ts:277-286 | After loading, every task path is a heading; every heading is an old heading or a task path; each new path occurs once; and dropping the new paths gives back the old order |
| TaskTable.Reordered | src/services/obsidianApi.ts:293-295 | A move fails exactly when `before` is not a heading |
| TaskTable.ReorderedPlaces | src/services/obsidianApi.ts:296-298 | After a move, the file occurs exactly once, at `before`'s old index (or at the end). Removing it gives the order with the file pulled |
| TaskTable.ReorderedAtIndex | src/services/obsidianApi.ts:293-298 | In a duplicate-free order, the moved file sits at the index `before` had |
| TaskTable.Planner.LoadTasks | src/services/obsidianApi.ts:262-290 | Unchanged items leave the whole state unchanged. Otherwise the cache holds the new serialisation, the table is the parent-resolved id table, and the heading order is the old order merged with the sorted new paths |
| TaskTable.Planner.UpdateFileOrder | src/services/obsidianApi.ts:293-302 | It succeeds exactly when `before` is a heading. The order becomes the reordered one on success and is untouched on failure; the table and the cache never change |
| Dragging.OnDragEnd | src/services/dragging.ts:16-159 | The dispatch issues exactly the call log `DropCalls` prescribes for the drop target, payload and environment |
| Dragging.OnDragStart | src/services/dragging.ts:161-163 | Starting a drag records its payload and does nothing else |
| Dragging.CancelledDrop | src/services/dragging.ts:23-26 | Dropping an item on itself only clears the drag data |
| Dragging.NewButtonDraft | src/services/dragging.ts:28-29 | The new-task button with no drop target, or over a time slot, opens a draft scheduled at that slot (or unscheduled), then clears |
| Dragging.HeadingReorders | src/services/dragging.ts:33-36 | On a heading, only a group drag calls `updateFileOrder`, with its path and the heading; everything else only clears |
| Dragging.WithChildren | src/services/dragging.ts:45-51 | The delete candidates are exactly the dragged ids and their children |
| Dragging.WithChildrenSingle | src/services/dragging.ts:47-50 | A dragged task contributes its own id, followed by its children in order |
| Dragging.WithChildrenAppend | src/services/dragging.ts:47-50 | The candidates of two runs of dragged tasks are the candidates of the first run followed by those of the second |
| Text.Uniq | src/services/dragging.ts:46-51 | The result holds exactly the elements of the input, each once, in the order of their first occurrences |
| Dragging.DeleteListExact | src/services/dragging.ts:45-53 | The delete list has no duplicates and holds exactly the dragged tasks and their children, in the order of their first occurrence among the dragged ids each followed by its children |
| Dragging.DeleteConfirms | src/services/dragging.ts:37-60 | Confirmation is asked exactly when more than one task would be deleted. Deletion happens exactly when there is at most one task or the user confirms, and then on the reversed list. The log ends with the clear |
| Dragging.AtMinute | src/services/dragging.ts:76-92 | The tasks grouped at a minute are exactly those listed that qualify (open, timed today, no query parent) and are scheduled at that minute |
| Dragging.GroupsExact | src/services/dragging.ts:76-94 | The grouping's keys are exactly the minutes with at least one qualifying task, and each group is that minute's qualifying tasks in key order |
| Dragging.CollectFuture | src/services/dragging.ts:76-94 | The loop over the table, with its ancestor walk, computes the grouping `Groups` |
| Dragging.FutureNonEmpty | src/services/dragging.ts:96-100 | There is a first group to shift from exactly when some task qualifies |
| Dragging.SortedDistinct | src/services/dragging.ts:96 | Sorting the distinct group keys gives strictly ascending keys |
| Dragging.ShiftKeys | src/services/dragging.ts:96-100 | The sorted keys strictly ascend and cover every qualifying task's minute, every key has a group, and the first key is the earliest qualifying minute |
| Dragging.ShiftMoves | src/services/dragging.ts:97-115 | The shift asks for confirmation with the hours and minutes from the earliest group to the drop time. Declined, nothing else happens. Confirmed, the patches of all groups follow in ascending key order, each by the drop time minus the earliest key (the hours and minutes added back sum to exactly that) |
| Dragging.GroupPatches | src/services/dragging.ts:105-114 | The patch for each sorted key names exactly the qualifying tasks scheduled at that key and moves them to the key plus the offset |
| Dragging.ShiftNow | src/services/dragging.ts:64-116 | The `now` branch issues exactly `ShiftCalls`: the confirmation, then the patches in time order |
| Dragging.LengthFromDrop | src/services/dragging.ts:120-139 | A length or time drag measures from its start to the drop time in hours and minutes of that total, non-negative exactly when the drop is not earlier. A length drag patches the task's length; a time drag opens a draft |
| Dragging.PatchTargets | src/services/dragging.ts:141-153 | Block and group drags patch all their tasks with the drop fields; a task drag patches that task; a due drag sets the due date of its task |
| Dragging.DragDataCleared | src/services/dragging.ts:120-158 | Every drop ends by clearing the drag data, exactly once and last, except a time or length drag onto a slot with no time, which returns before clearing |
| Hours.TakeNested | src/components/Hours.tsx:35-38 | The inner loop absorbs exactly the following blocks that start before the current block's end, and stops at the first that does not |
| Hours.FormatBlocks | src/components/Hours.tsx:31-48 | The grouping loop computes `Group` |
| Hours.NestedCount | src/components/Hours.tsx:35 | The count covers the leading run of blocks starting before the end, and the block after the run does not |
| Hours.GroupKeepsEveryBlock | src/components/Hours.tsx:31-48 | Flattening the top-level blocks with their nested blocks gives back the input list, so no block is dropped or duplicated |
| Hours.NestedStartBeforeOwnerEnd | src/components/Hours.tsx:35-38 | Every nested block starts before the raw end of the top-level block it is placed in |
| Hours.TopLevelStartsAfterPreviousEnd | src/components/Hours.tsx:35-40 | Each top-level block starts at or after the raw end of the top-level block before it |
| Hours.GroupHead | src/components/Hours.tsx:31-48 | Only an empty input groups to nothing, and the first top-level block is the first input block |
| Hours.ExtensionRule | src/components/Hours.tsx:42-45 | With extension on, a zero-length block is drawn to the next top-level start (or the window end); any other block keeps its own end |
| Hours.LayoutShape | src/components/Hours.tsx:57-101 | The drawing is a leading filler, then each top-level block, followed by its filler up to the next start unless times are hidden. Fillers are chopped at the start when asked, when the window starts at the first block, or after a zero-length block |
| Hours.LayoutTilesWindow | src/components/Hours.tsx:31-101 | With times shown and blocks inside the window, the spans cover the window from start to end without gap or overlap; no blocks give one filler over the whole window |

## Left out

- Obsidian, the vault and Dataview's query: `dv.pages`, the completion, exclusion and future-start filter (obsidianApi.ts:246-260) and Dataview's field parsing are outside the model. The items handed to `textToTask` are the model's input, with every field already extracted.
- The title and notes clean-up in `textToTask` (obsidianApi.ts:82-94) works by regular-expression replacement. The cleaned title is an input field.
- The extra-field extraction (obsidianApi.ts:96-98) omits the reserved Dataview keys and converts each value to text. The resulting pairs are an input field.
- `JSON.stringify` is the `serialize` parameter of `Planner.LoadTasks`; only its equality test matters.
- `saveSettings` and the store setter calls in `loadTasks`/`updateFileOrder` are I/O. The new table and order are the Planner's fields.
- The `throw` in `updateFileOrder` is the `found == false` result, with the state unchanged.
- luxon is modelled as calendar dates plus a minute of day: there are no time zones, seconds or milliseconds. `DateTime.now()` is the `midnight` field of the drag environment.
- The `util` helpers `isDateISO`, `getChildren`, `parseTaskDate`, `toISO` and `getEndISO` are not part of this model. Each is stood in for as follows:
  - `isDateISO` is taken to be the `YYYY-MM-DD` form test (`IsoTime.IsDateIso`). This is an assumption, not read from its source;
  - `toISO` output is represented by minute counts in `Dragging`, and by `IsoTime.DateTimeText` in the codec;
  - `getChildren` is a function parameter;
  - `parseTaskDate` gives the `scheduled` field of a task view;
  - `getEndISO` gives a block's `rawEnd`.
- The `TaskPriorities` enum file is not part of this model. Its numbering (TypeScript's default, HIGHEST = 0 to LOWEST = 5 with DEFAULT = 3) is an input assumption.
- `confirm` dialogs are answered by the `confirmDelete`/`confirmShift` fields of the environment. `await` and async ordering are not modelled: calls are a sequential log.
- React rendering (Minutes, Block, Fragment keys, drag containers) is left out. The Hours model stops at the list of spans to draw.
- Dragging.CollectFuture, Dragging.ShiftNow and Dragging.OnDragEnd require (through `AncestorsClear` and `ChainWithin`) that the parent chain of every qualifying task ends within the table. Three inputs are excluded:
  - an ancestor with a query parent: the `continue` at dragging.ts:88 never advances `parent`, so the ancestor loop spins forever;
  - an ancestor id missing from the table: `tasks[parent].queryParent` at dragging.ts:88 throws a TypeError;
  - a cyclic parent chain: `while (parent)` at dragging.ts:87-90 never ends.
- Dragging.ShiftNow and Dragging.OnDragEnd require, for a `now` drop on a timed slot, that some task qualifies. In the source, `tasksByTime[0][0]` throws on an empty grouping.
- Dragging.DeleteListExact: `_.sortBy(…, 'id')` on a list of strings sorts by an undefined key and leaves the list as it is. The model keeps the `uniq` order.
- RecordRoundTrip.TaskLineReadsBack does not state the id, which comes from the item's position and not from the line. Title, tags, extra fields, path and heading are copied from the item unchanged. The clean-up and field extraction that produce them are outside the model.
- RoundTrip.DataviewScheduledRoundTrip, RoundTrip.TasksScheduledRoundTrip and RecordRoundTrip.TaskLineReadsBack assume that the title, tags and extra fields hold no `[` and no ⏳, and that no extra-field key is `scheduled` or holds `:`. Other text could hold a match of the scheduled pattern ahead of the written field.
- RecordRoundTrip.TaskLineReadsBack is stated for the line as the source writes it, so HIGHEST reads back as DEFAULT (see Findings).
- RecordRoundTrip.TaskLineReadsBack and RecordRoundTrip.DatesReadBack assume that the due, start, created and completion values are ISO dates without a time (`parseDateKey` keeps only `toISODate()` of a Dataview field), and that the title, tags and extra fields hold none of the four date emojis. In the Tasks dialect Dataview may leave a field unset, and the emoji search then reads the written marker.
- The `notes`, `type` and `position` fields that `textToTask` returns (obsidianApi.ts:226, 232, 234) have no counterpart in `TaskRecord.Task`. They are a constant or taken from the item, and no modelled operation reads them.
- Text.ParseInt reads base 10 only. JavaScript's `parseInt` without a radix reads a `0x` prefix as hexadecimal, so `"0x1f"` is 31 there and 0 here. The model's inputs to it are the hour and minute parts of `startTime` and `endTime` (obsidianApi.ts:118-120, 158-160), which `taskToText` writes in decimal.
- String order is Dafny's `char` order. JavaScript compares UTF-16 code units, which differs for characters outside the Basic Multilingual Plane.
- JavaScript puts integer-like object keys first in `_.values` order. Task ids always contain `::`, so the insertion order the model uses is the source's order.
- Instants in `Dragging` and `Hours` are minute counts. The source compares ISO strings of a single format, whose order is time order.

## Findings

| source | as written | input that shows it | evidently intended | confidence | as-written member | corrected member |
|---|---|---|---|---|---|---|
| src/services/obsidianApi.ts:398-409 | `task.priority && task.priority !== DEFAULT` skips the priority text when the priority is 0 | a task with priority HIGHEST (0) written in the `tasks` dialect: no 🔺 marker is written, and the line parses back as DEFAULT | write the marker (or `[priority:: highest]`) for every non-DEFAULT priority | not executed; depends on the enum numbering HIGHEST = 0, which is not part of this model | RoundTrip.HighestLostAsWritten | RoundTrip.TasksPriorityRoundTrip |
