/**
 * What a finished drag does: `onDragEnd` looks at the drag payload and the
 * drop target and issues store and plugin calls, recorded here in order as
 * a call log. `confirm` dialogs are answered by the environment. Instants
 * are minute counts on a zone-less clock; the source compares ISO strings
 * of one format, whose order is time order.
 */
module Dragging {
  import opened Text
  import opened IsoTime
  import opened TaskRecord

  /** The scheduled value `parseTaskDate` gives a task: a date alone, or an
      instant. */
  datatype When = DateOnly | At(minute: int)

  /** What the drop logic reads of a task in the store. */
  datatype TaskView = TaskView(completed: bool, scheduled: Option<When>, queryParent: bool, parent: Option<string>)

  /** The drag payload, by `dragType`. */
  datatype DragData =
    | TaskDrag(id: string)
    | BlockDrag(ids: seq<string>)
    | GroupDrag(ids: seq<string>, path: string)
    | NowDrag
    | NewButtonDrag
    | LengthDrag(id: string, start: int)
    | TimeDrag(start: int)
    | DueDrag(taskId: string)

  /** The drop target's data: a heading, the delete zone, or task fields
      (`isTaskProps`), of which only `scheduled` is read; `None` stands for
      an absent or empty one. */
  datatype DropData =
    | HeadingDrop(heading: string)
    | DeleteDrop
    | TaskDrop(scheduled: Option<int>, fields: seq<(string, string)>)

  /** The new-task draft set in the store. */
  datatype Draft = Draft(scheduled: Option<int>, length: Option<Length>)

  /** The change `patchTasks` applies. */
  datatype Patch =
    | FieldsPatch(drop: DropData)
    | SchedulePatch(scheduled: int)
    | LengthPatch(length: Length)
    | DuePatch(due: Option<int>)

  /** One call the drop logic issues. */
  datatype Call =
    | SetDragData(data: Option<DragData>)
    | SetNewTask(draft: Draft)
    | UpdateFileOrder(file: string, before: string)
    | ConfirmDelete(count: nat)
    | DeleteTasks(ids: seq<string>)
    | ConfirmShift(hours: int, minutes: int)
    | PatchTasks(ids: seq<string>, patch: Patch)

  /** The store's tasks with their key order, the start of the current
      day, the `dayStartEnd[0]` setting in hours, and the answers the user
      gives to the two `confirm` dialogs. */
  datatype Env = Env(
    tasks: map<string, TaskView>,
    order: seq<string>,
    midnight: int,
    dayStart: int,
    confirmDelete: bool,
    confirmShift: bool)

  /** `order` lists each key of the table once. */
  ghost predicate ValidEnv(env: Env)
  {
    (forall id :: id in env.order <==> id in env.tasks) && NoDuplicates(env.order)
  }

  const Clear := SetDragData(None)

  // ---- delete ----

  /** The tasks dragged onto the delete zone. */
  function Dragged(drag: DragData): seq<string>
  {
    match drag
    case BlockDrag(ids) => ids
    case GroupDrag(ids, _) => ids
    case TaskDrag(id) => [id]
    case _ => []
  }

  /** `_.flatMap(ids, id => [id, ...getChildren(id)])`. */
  function WithChildren(ids: seq<string>, children: string -> seq<string>): (r: seq<string>)
    ensures forall x :: x in r <==> exists k :: 0 <= k < |ids| && (x == ids[k] || x in children(ids[k]))
  {
    if ids == [] then []
    else
      var rest := WithChildren(ids[1..], children);
      assert forall k :: 1 <= k < |ids| ==> ids[k] == ids[1..][k - 1];
      [ids[0]] + children(ids[0]) + rest
  }

  /** The ids to delete; the `_.sortBy(…, 'id')` of the source sorts plain
      strings by a missing key and so keeps the order. */
  function DeleteList(ids: seq<string>, children: string -> seq<string>): seq<string>
  {
    Uniq(WithChildren(ids, children))
  }

  function Reverse(s: seq<string>): (r: seq<string>)
    ensures |r| == |s| && forall k :: 0 <= k < |s| ==> r[k] == s[|s| - 1 - k]
  {
    if s == [] then [] else Reverse(s[1..]) + [s[0]]
  }

  /** The delete branch without the final clearing of the drag data. */
  function DeleteCalls(ids: seq<string>, children: string -> seq<string>, confirmed: bool): seq<Call>
  {
    var list := DeleteList(ids, children);
    if |list| > 1 && !confirmed then [ConfirmDelete(|list|)]
    else if |list| > 1 then [ConfirmDelete(|list|), DeleteTasks(Reverse(list))]
    else [DeleteTasks(Reverse(list))]
  }

  // ---- the `now` shift ----

  /** The tasks the shift moves: incomplete, scheduled at a time (not a date
      alone) in `[today, tomorrow)` where today starts `dayStart` hours after
      midnight, and not listed under a query parent. */
  predicate Qualifies(env: Env, id: string)
    requires id in env.tasks
  {
    var t := env.tasks[id];
    var today := env.midnight + env.dayStart * 60;
    && !t.completed
    && t.scheduled.Some? && t.scheduled.value.At?
    && today <= t.scheduled.value.minute < today + 1440
    && !t.queryParent
  }

  /** The parent chain from `p` ends within `n` steps, inside the table,
      without meeting a task under a query parent: what the ancestor loop
      needs in order to terminate. */
  ghost predicate ChainWithin(tasks: map<string, TaskView>, p: Option<string>, n: nat)
    decreases n
  {
    p.None? || (n > 0 && p.value in tasks && !tasks[p.value].queryParent && ChainWithin(tasks, tasks[p.value].parent, n - 1))
  }

  ghost predicate AncestorsClear(env: Env)
  {
    forall id :: id in env.tasks && Qualifies(env, id) ==> exists n: nat :: ChainWithin(env.tasks, env.tasks[id].parent, n)
  }

  /** The ids of `ids` that qualify and are scheduled at `m`, in order. */
  function AtMinute(env: Env, ids: seq<string>, m: int): (r: seq<string>)
    requires forall id :: id in ids ==> id in env.tasks
    ensures forall id :: id in r <==> id in ids && Qualifies(env, id) && env.tasks[id].scheduled.value.minute == m
    decreases |ids|
  {
    if ids == [] then []
    else
      var id := ids[|ids| - 1];
      assert forall x :: x in ids <==> x in ids[..|ids| - 1] || x == id by {
        assert ids == ids[..|ids| - 1] + [id];
      }
      var before := AtMinute(env, ids[..|ids| - 1], m);
      if Qualifies(env, id) && env.tasks[id].scheduled.value.minute == m then before + [id] else before
  }

  /** `futureTasks` after the loop over `ids`: its keys in insertion order
      and the tasks of each key. */
  function Groups(env: Env, ids: seq<string>): (r: (seq<int>, map<int, seq<string>>))
    requires forall id :: id in ids ==> id in env.tasks
    ensures forall m :: m in r.0 <==> m in r.1
    ensures NoDuplicates(r.0)
    decreases |ids|
  {
    if ids == [] then ([], map[])
    else
      var prev := Groups(env, ids[..|ids| - 1]);
      var id := ids[|ids| - 1];
      if !Qualifies(env, id) then prev
      else
        var m := env.tasks[id].scheduled.value.minute;
        if m in prev.1 then (prev.0, prev.1[m := prev.1[m] + [id]])
        else (prev.0 + [m], prev.1[m := [id]])
  }

  /** Inserts `x` into an ascending list. */
  function InsertInt(x: int, s: seq<int>): (r: seq<int>)
    ensures multiset(r) == multiset(s) + multiset{x}
    ensures |r| == |s| + 1
  {
    if s == [] || x <= s[0] then [x] + s
    else
      assert s == [s[0]] + s[1..];
      [s[0]] + InsertInt(x, s[1..])
  }

  /** `_.sortBy(_.entries(futureTasks), 0)`, on the keys. */
  function SortInts(s: seq<int>): (r: seq<int>)
    ensures multiset(r) == multiset(s)
    ensures |r| == |s|
  {
    if s == [] then []
    else
      assert s == [s[0]] + s[1..];
      InsertInt(s[0], SortInts(s[1..]))
  }

  lemma SortedKeysListed(keys: seq<int>, groups: map<int, seq<string>>)
    requires forall m :: m in keys <==> m in groups
    ensures forall i :: 0 <= i < |SortInts(keys)| ==> SortInts(keys)[i] in groups
  {
    var r := SortInts(keys);
    forall i | 0 <= i < |r| ensures r[i] in groups {
      var m := r[i];
      assert m in multiset(r);
      assert m in multiset(keys);
      assert m in keys;
    }
  }

  /** The patches of the shift, one per key in order. */
  function ShiftPatches(keys: seq<int>, groups: map<int, seq<string>>, delta: int): (r: seq<Call>)
    requires forall i :: 0 <= i < |keys| ==> keys[i] in groups
    ensures |r| == |keys|
    ensures forall i :: 0 <= i < |keys| ==> r[i] == PatchTasks(groups[keys[i]], SchedulePatch(keys[i] + delta))
  {
    seq(|keys|, i requires 0 <= i < |keys| => PatchTasks(groups[keys[i]], SchedulePatch(keys[i] + delta)))
  }

  /** The `now` branch for a drop at `dropAt`, without the final clearing. */
  function ShiftCalls(env: Env, dropAt: int): seq<Call>
    requires ValidEnv(env)
    requires Groups(env, env.order).0 != []
  {
    SortedKeysListed(Groups(env, env.order).0, Groups(env, env.order).1);
    ShiftFrom(SortInts(Groups(env, env.order).0), Groups(env, env.order).1, dropAt, env.confirmShift)
  }

  /** The question and, once confirmed, the patches for the keys `byTime`
      in ascending order: the shift runs from the earliest key to `dropAt`.
      The source adds the shift back as its hours and minutes; those sum
      to the shift itself (the contract of `ShiftTo`), which is what the
      patches add here. */
  function ShiftFrom(byTime: seq<int>, groups: map<int, seq<string>>, dropAt: int, confirmed: bool): seq<Call>
    requires byTime != []
    requires forall i :: 0 <= i < |byTime| ==> byTime[i] in groups
  {
    var (h, mi) := ShiftTo(dropAt - byTime[0]);
    if !confirmed then [ConfirmShift(h, mi)]
    else [ConfirmShift(h, mi)] + ShiftPatches(byTime, groups, dropAt - byTime[0])
  }

  // ---- the dispatch ----

  /** The calls for a drop on task fields. */
  function TaskDropCalls(drag: DragData, drop: DropData, env: Env): seq<Call>
    requires drop.TaskDrop?
    requires ValidEnv(env)
    requires drag.NowDrag? && drop.scheduled.Some? ==> Groups(env, env.order).0 != []
  {
    match drag
    case NowDrag =>
      (if drop.scheduled.None? then [] else ShiftCalls(env, drop.scheduled.value)) + [Clear]
    case NewButtonDrag => [SetNewTask(Draft(drop.scheduled, None)), Clear]
    case LengthDrag(id, start) =>
      if drop.scheduled.None? then []
      else
        var (h, mi) := ShiftTo(drop.scheduled.value - start);
        [PatchTasks([id], LengthPatch(Length(h, mi))), Clear]
    case TimeDrag(start) =>
      if drop.scheduled.None? then []
      else
        var (h, mi) := ShiftTo(drop.scheduled.value - start);
        [SetNewTask(Draft(Some(start), Some(Length(h, mi)))), Clear]
    case BlockDrag(ids) => [PatchTasks(ids, FieldsPatch(drop)), Clear]
    case GroupDrag(ids, _) => [PatchTasks(ids, FieldsPatch(drop)), Clear]
    case TaskDrag(id) => [PatchTasks([id], FieldsPatch(drop)), Clear]
    case DueDrag(taskId) => [PatchTasks([taskId], DuePatch(drop.scheduled)), Clear]
  }

  /** The drop reaches the `now` shift. */
  predicate ShiftReached(activeId: string, overId: Option<string>, drop: Option<DropData>, drag: Option<DragData>)
  {
    overId != Some(activeId) && drag == Some(NowDrag) && drop.Some? && drop.value.TaskDrop? && drop.value.scheduled.Some?
  }

  /** Everything `onDragEnd` issues, in order. */
  function DropCalls(activeId: string, overId: Option<string>, drop: Option<DropData>, drag: Option<DragData>,
                     env: Env, children: string -> seq<string>): seq<Call>
    requires ValidEnv(env)
    requires ShiftReached(activeId, overId, drop, drag) ==> Groups(env, env.order).0 != []
  {
    if overId == Some(activeId) then [Clear]
    else if drag == Some(NewButtonDrag) && drop.None? then [SetNewTask(Draft(None, None)), Clear]
    else if drop.Some? && drag.Some? then
      match drop.value
      case HeadingDrop(heading) =>
        (if drag.value.GroupDrag? then [UpdateFileOrder(drag.value.path, heading)] else []) + [Clear]
      case DeleteDrop =>
        DeleteCalls(Dragged(drag.value), children, env.confirmDelete) + [Clear]
      case TaskDrop(_, _) =>
        TaskDropCalls(drag.value, drop.value, env)
    else [Clear]
  }

  // ---- the handler ----

  /** The loop of src/services/dragging.ts:76-94 that fills `futureTasks`,
      with its ancestor walk. */
  method CollectFuture(env: Env) returns (keys: seq<int>, futureTasks: map<int, seq<string>>)
    requires ValidEnv(env) && AncestorsClear(env)
    ensures (keys, futureTasks) == Groups(env, env.order)
  {
    var today := env.midnight + env.dayStart * 60;
    var tomorrow := today + 1440;
    keys, futureTasks := [], map[];
    var i := 0;
    while i < |env.order|
      invariant 0 <= i <= |env.order|
      invariant (keys, futureTasks) == Groups(env, env.order[..i])
    {
      var id := env.order[i];
      var task := env.tasks[id];
      assert env.order[..i + 1][..i] == env.order[..i];
      if !task.completed {
        var scheduled := task.scheduled;
        if scheduled.Some? && scheduled.value.At? && today <= scheduled.value.minute < tomorrow && !task.queryParent {
          assert Qualifies(env, id);
          var parent := task.parent;
          ghost var n: nat :| ChainWithin(env.tasks, parent, n);
          while parent.Some?
            invariant ChainWithin(env.tasks, parent, n)
            decreases n
          {
            parent := env.tasks[parent.value].parent;
            n := n - 1;
          }
          var m := scheduled.value.minute;
          if m in futureTasks {
            futureTasks := futureTasks[m := futureTasks[m] + [id]];
          } else {
            keys := keys + [m];
            futureTasks := futureTasks[m := [id]];
          }
        }
      }
      i := i + 1;
    }
    assert env.order[..i] == env.order;
  }

  /** The `now` branch of src/services/dragging.ts:67-115 for a drop at
      `dropAt`: the tasks of today grouped by time, the shift from the
      earliest key, the confirmation and the patches. */
  method ShiftNow(env: Env, dropAt: int) returns (calls: seq<Call>)
    requires ValidEnv(env) && AncestorsClear(env)
    requires Groups(env, env.order).0 != []
    ensures calls == ShiftCalls(env, dropAt)
  {
    var keys, futureTasks := CollectFuture(env);
    var byTime := SortInts(keys);
    SortedKeysListed(keys, futureTasks);
    var (shiftHours, shiftMinutes) := ShiftTo(dropAt - byTime[0]);
    calls := [ConfirmShift(shiftHours, shiftMinutes)];
    if !env.confirmShift {
      return;
    }
    var patches := PatchGroups(byTime, futureTasks, shiftHours * 60 + shiftMinutes);
    calls := calls + patches;
  }

  /** The loop of src/services/dragging.ts:105-114: one patch per key, in
      the order of `byTime`, moving that key's tasks by `delta` minutes. */
  method PatchGroups(byTime: seq<int>, futureTasks: map<int, seq<string>>, delta: int) returns (patches: seq<Call>)
    requires forall i :: 0 <= i < |byTime| ==> byTime[i] in futureTasks
    ensures patches == ShiftPatches(byTime, futureTasks, delta)
  {
    patches := [];
    var j := 0;
    while j < |byTime|
      invariant 0 <= j <= |byTime|
      invariant |patches| == j
      invariant forall k :: 0 <= k < j ==> patches[k] == PatchTasks(futureTasks[byTime[k]], SchedulePatch(byTime[k] + delta))
    {
      var time := byTime[j];
      patches := patches + [PatchTasks(futureTasks[time], SchedulePatch(time + delta))];
      j := j + 1;
    }
  }

  /** The branches of `onDragEnd` for a drop on task fields
      (src/services/dragging.ts:64-158), the final clearing included. */
  method OnTaskDrop(dragData: DragData, dropData: DropData, env: Env) returns (calls: seq<Call>)
    requires dropData.TaskDrop? && ValidEnv(env)
    requires dragData.NowDrag? && dropData.scheduled.Some? ==> AncestorsClear(env) && Groups(env, env.order).0 != []
    ensures calls == TaskDropCalls(dragData, dropData, env)
  {
    calls := [];
    if dragData.NowDrag? {
      if dropData.scheduled.Some? {
        var shift := ShiftNow(env, dropData.scheduled.value);
        calls := calls + shift;
      }
    } else if dragData.NewButtonDrag? {
      calls := calls + [SetNewTask(Draft(dropData.scheduled, None))];
    } else if dragData.TimeDrag? || dragData.LengthDrag? {
      if dropData.scheduled.None? {
        return;
      }
      var (hours, minutes) := ShiftTo(dropData.scheduled.value - dragData.start);
      if dragData.LengthDrag? {
        calls := calls + [PatchTasks([dragData.id], LengthPatch(Length(hours, minutes)))];
      } else {
        calls := calls + [SetNewTask(Draft(Some(dragData.start), Some(Length(hours, minutes))))];
      }
    } else if dragData.BlockDrag? || dragData.GroupDrag? {
      calls := calls + [PatchTasks(dragData.ids, FieldsPatch(dropData))];
    } else if dragData.TaskDrag? {
      calls := calls + [PatchTasks([dragData.id], FieldsPatch(dropData))];
    } else {
      calls := calls + [PatchTasks([dragData.taskId], DuePatch(dropData.scheduled))];
    }
    calls := calls + [Clear];
  }

  /** `onDragEnd` (src/services/dragging.ts:16-159): the active and over ids,
      the drop data and the drag payload, with the store and the dialogs in
      `env` and `getChildren` as `children`. */
  method OnDragEnd(activeId: string, overId: Option<string>, drop: Option<DropData>, drag: Option<DragData>,
                   env: Env, children: string -> seq<string>) returns (calls: seq<Call>)
    requires ValidEnv(env)
    requires ShiftReached(activeId, overId, drop, drag) ==> AncestorsClear(env) && Groups(env, env.order).0 != []
    ensures calls == DropCalls(activeId, overId, drop, drag, env, children)
  {
    calls := [];
    if overId == Some(activeId) {
      calls := calls + [Clear];
      return;
    }
    if drag == Some(NewButtonDrag) && drop.None? {
      calls := calls + [SetNewTask(Draft(None, None))];
    } else if drop.Some? && drag.Some? {
      var dropData, dragData := drop.value, drag.value;
      if dropData.HeadingDrop? {
        if dragData.GroupDrag? {
          calls := calls + [UpdateFileOrder(dragData.path, dropData.heading)];
        }
      } else if dropData.DeleteDrop? {
        var list := DeleteList(Dragged(dragData), children);
        if |list| > 1 {
          calls := calls + [ConfirmDelete(|list|)];
        }
        if |list| <= 1 || env.confirmDelete {
          calls := calls + [DeleteTasks(Reverse(list))];
        }
      } else {
        calls := OnTaskDrop(dragData, dropData, env);
        return;
      }
    }
    calls := calls + [Clear];
  }

  // ---- properties ----

  /** Dropping an item on itself only clears the drag data: no patch, no
      delete and no draft. */
  lemma CancelledDrop(activeId: string, drop: Option<DropData>, drag: Option<DragData>,
                      env: Env, children: string -> seq<string>)
    requires ValidEnv(env)
    ensures DropCalls(activeId, Some(activeId), drop, drag, env, children) == [Clear]
  {
  }

  /** The new-task button dropped on nothing opens a draft without a time;
      dropped on task fields, the draft takes their `scheduled`. */
  lemma NewButtonDraft(activeId: string, overId: Option<string>, drop: Option<DropData>,
                       env: Env, children: string -> seq<string>)
    requires ValidEnv(env) && overId != Some(activeId)
    requires drop.None? || drop.value.TaskDrop?
    ensures DropCalls(activeId, overId, drop, Some(NewButtonDrag), env, children)
      == [SetNewTask(Draft(if drop.None? then None else drop.value.scheduled, None)), Clear]
  {
  }

  /** A heading drop moves the file of a dragged group before that heading
      and does nothing for any other drag. */
  lemma HeadingReorders(activeId: string, overId: Option<string>, heading: string, drag: DragData,
                        env: Env, children: string -> seq<string>)
    requires ValidEnv(env) && overId != Some(activeId)
    ensures DropCalls(activeId, overId, Some(HeadingDrop(heading)), Some(drag), env, children)
      == if drag.GroupDrag? then [UpdateFileOrder(drag.path, heading), Clear] else [Clear]
  {
  }

  /** One dragged task contributes itself, then its children. */
  lemma WithChildrenSingle(id: string, children: string -> seq<string>)
    ensures WithChildren([id], children) == [id] + children(id)
  {
    assert WithChildren([id][1..], children) == [];
  }

  /** The flat map distributes over concatenation: the candidates of two
      runs of dragged tasks are those of the first run, then those of the
      second. */
  lemma {:induction false} WithChildrenAppend(a: seq<string>, b: seq<string>, children: string -> seq<string>)
    ensures WithChildren(a + b, children) == WithChildren(a, children) + WithChildren(b, children)
    decreases |a|
  {
    if a == [] {
      assert a + b == b;
    } else {
      WithChildrenAppend(a[1..], b, children);
      assert (a + b)[0] == a[0] && (a + b)[1..] == a[1..] + b;
    }
  }

  /** The delete list holds each dragged task and each of its children,
      nothing else, and each only once, in the order of its first
      occurrence among the dragged tasks each followed by its children. */
  lemma DeleteListExact(ids: seq<string>, children: string -> seq<string>)
    ensures NoDuplicates(DeleteList(ids, children))
    ensures forall x :: x in DeleteList(ids, children) <==>
      exists k :: 0 <= k < |ids| && (x == ids[k] || x in children(ids[k]))
    ensures FirstOccurrenceOrder(DeleteList(ids, children), WithChildren(ids, children))
  {
  }

  /** Deleting asks for confirmation exactly when more than one task goes,
      deletes nothing when the user declines, and otherwise hands the list
      over reversed. */
  lemma DeleteConfirms(activeId: string, overId: Option<string>, drag: DragData,
                       env: Env, children: string -> seq<string>)
    requires ValidEnv(env) && overId != Some(activeId)
    ensures var list := DeleteList(Dragged(drag), children);
      var calls := DropCalls(activeId, overId, Some(DeleteDrop), Some(drag), env, children);
      && (ConfirmDelete(|list|) in calls <==> |list| > 1)
      && ((exists c :: c in calls && c.DeleteTasks?) <==> |list| <= 1 || env.confirmDelete)
      && (forall c :: c in calls && c.DeleteTasks? ==> c.ids == Reverse(list))
      && calls[|calls| - 1] == Clear
  {
    var list := DeleteList(Dragged(drag), children);
    var calls := DropCalls(activeId, overId, Some(DeleteDrop), Some(drag), env, children);
    if |list| <= 1 || env.confirmDelete {
      assert DeleteTasks(Reverse(list)) in calls;
    }
  }

  /** `s` is in non-decreasing order. */
  ghost predicate AscendingInts(s: seq<int>)
  {
    forall i, j :: 0 <= i < j < |s| ==> s[i] <= s[j]
  }

  lemma {:induction false} InsertIntAscending(x: int, s: seq<int>)
    requires AscendingInts(s)
    ensures AscendingInts(InsertInt(x, s))
    decreases |s|
  {
    if s != [] && x > s[0] {
      InsertIntAscending(x, s[1..]);
      var r := InsertInt(x, s);
      var t := InsertInt(x, s[1..]);
      assert r == [s[0]] + t;
      forall j | 0 < j < |r| ensures s[0] <= r[j] {
        assert r[j] in multiset(t);
        assert r[j] in multiset(s[1..]) + multiset{x};
        if r[j] != x {
          assert r[j] in s[1..];
        }
      }
    }
  }

  lemma {:induction false} SortIntsAscending(s: seq<int>)
    ensures AscendingInts(SortInts(s))
    decreases |s|
  {
    if s != [] {
      SortIntsAscending(s[1..]);
      InsertIntAscending(s[0], SortInts(s[1..]));
    }
  }

  lemma {:induction false} NoDuplicatesAtMostOnce(s: seq<int>, x: int)
    requires NoDuplicates(s)
    ensures multiset(s)[x] <= 1
    decreases |s|
  {
    if s != [] {
      assert s == [s[0]] + s[1..];
      assert s[0] !in s[1..];
      NoDuplicatesAtMostOnce(s[1..], x);
    }
  }

  lemma TwiceCounted(s: seq<int>, i: nat, j: nat)
    requires i < j < |s| && s[i] == s[j]
    ensures multiset(s)[s[i]] >= 2
  {
    assert s == s[..j] + s[j..];
    assert s[i] in s[..j];
    assert s[j] in s[j..];
    assert multiset(s) == multiset(s[..j]) + multiset(s[j..]);
  }

  /** Distinct keys, sorted, strictly ascend. */
  lemma SortedDistinct(keys: seq<int>)
    requires NoDuplicates(keys)
    ensures forall i, j :: 0 <= i < j < |SortInts(keys)| ==> SortInts(keys)[i] < SortInts(keys)[j]
  {
    var r := SortInts(keys);
    SortIntsAscending(keys);
    forall i, j | 0 <= i < j < |r| ensures r[i] < r[j] {
      if r[i] == r[j] {
        TwiceCounted(r, i, j);
        NoDuplicatesAtMostOnce(keys, r[i]);
        assert false;
      }
    }
  }

  /** `futureTasks` holds a key exactly for the times of qualifying tasks,
      and under each the qualifying tasks at that time, in table order. */
  lemma {:induction false} GroupsExact(env: Env, ids: seq<string>)
    requires forall id :: id in ids ==> id in env.tasks
    ensures forall m :: m in Groups(env, ids).1 <==> AtMinute(env, ids, m) != []
    ensures forall m :: m in Groups(env, ids).1 ==> Groups(env, ids).1[m] == AtMinute(env, ids, m)
    decreases |ids|
  {
    if ids != [] {
      var p := ids[..|ids| - 1];
      assert forall id :: id in p ==> id in ids;
      GroupsExact(env, p);
    }
  }

  /** The shift has something to measure from exactly when some task of
      the table qualifies. */
  lemma FutureNonEmpty(env: Env)
    requires ValidEnv(env)
    ensures Groups(env, env.order).0 != [] <==> exists id :: id in env.tasks && Qualifies(env, id)
  {
    GroupsExact(env, env.order);
    var g := Groups(env, env.order);
    if g.0 != [] {
      var m := g.0[0];
      assert m in g.1;
      var id := AtMinute(env, env.order, m)[0];
      assert id in AtMinute(env, env.order, m);
    }
    if exists id :: id in env.tasks && Qualifies(env, id) {
      var id :| id in env.tasks && Qualifies(env, id);
      var m := env.tasks[id].scheduled.value.minute;
      assert id in AtMinute(env, env.order, m);
      assert m in g.0;
    }
  }

  /** The `now` shift: the keys are the times of the qualifying tasks in
      strictly ascending order, the first is the earliest of them, and the
      shift is measured from it. */
  lemma ShiftKeys(env: Env)
    requires ValidEnv(env) && Groups(env, env.order).0 != []
    ensures var keys := SortInts(Groups(env, env.order).0);
      && (forall i, j :: 0 <= i < j < |keys| ==> keys[i] < keys[j])
      && (forall id :: id in env.tasks && Qualifies(env, id) ==> env.tasks[id].scheduled.value.minute in keys)
      && (forall i :: 0 <= i < |keys| ==> AtMinute(env, env.order, keys[i]) != [])
      && (forall id :: id in env.tasks && Qualifies(env, id) ==> keys[0] <= env.tasks[id].scheduled.value.minute)
  {
    var g := Groups(env, env.order);
    var keys := SortInts(g.0);
    GroupsExact(env, env.order);
    SortedDistinct(g.0);
    forall id | id in env.tasks && Qualifies(env, id)
      ensures env.tasks[id].scheduled.value.minute in keys
      ensures keys[0] <= env.tasks[id].scheduled.value.minute
    {
      var m := env.tasks[id].scheduled.value.minute;
      assert id in AtMinute(env, env.order, m);
      assert m in multiset(g.0);
      assert m in multiset(keys);
      var k :| 0 <= k < |keys| && keys[k] == m;
      if k > 0 {
        assert keys[0] < keys[k];
      }
    }
    forall i | 0 <= i < |keys| ensures AtMinute(env, env.order, keys[i]) != [] {
      assert keys[i] in multiset(keys);
      assert keys[i] in multiset(g.0);
      assert keys[i] in g.0;
    }
  }

  /** The shift first asks, with the hours and minutes from the earliest
      key to the drop time; declined, nothing else happens; confirmed, the
      patches of the keys in ascending order follow, each moving its key
      by that same delta (`GroupPatches` says what each one holds). */
  lemma ShiftMoves(env: Env, dropAt: int)
    requires ValidEnv(env) && Groups(env, env.order).0 != []
    ensures forall i :: 0 <= i < |SortInts(Groups(env, env.order).0)| ==>
      SortInts(Groups(env, env.order).0)[i] in Groups(env, env.order).1
    ensures var keys := SortInts(Groups(env, env.order).0);
      var calls := ShiftCalls(env, dropAt);
      var delta := dropAt - keys[0];
      && calls[0] == ConfirmShift(ShiftTo(delta).0, ShiftTo(delta).1)
      && (!env.confirmShift ==> calls == [calls[0]])
      && (env.confirmShift ==> calls == [calls[0]] + ShiftPatches(keys, Groups(env, env.order).1, delta))
  {
    SortedKeysListed(Groups(env, env.order).0, Groups(env, env.order).1);
  }

  /** Each key's patch names exactly the qualifying tasks scheduled at
      that key. */
  lemma GroupPatches(env: Env, delta: int)
    requires ValidEnv(env)
    ensures forall i :: 0 <= i < |SortInts(Groups(env, env.order).0)| ==>
      SortInts(Groups(env, env.order).0)[i] in Groups(env, env.order).1
    ensures var keys := SortInts(Groups(env, env.order).0);
      forall i :: 0 <= i < |keys| ==>
        ShiftPatches(keys, Groups(env, env.order).1, delta)[i] ==
        PatchTasks(AtMinute(env, env.order, keys[i]), SchedulePatch(keys[i] + delta))
  {
    var g := Groups(env, env.order);
    SortedKeysListed(g.0, g.1);
    GroupsExact(env, env.order);
  }

  /** A length handle dropped at a time sets that task's length to the
      drop time minus the drag start; a time-range drag opens a draft at
      its start with that length. Both parts carry the sign of the
      difference. */
  lemma LengthFromDrop(activeId: string, overId: Option<string>, at: int, fields: seq<(string, string)>,
                       drag: DragData, env: Env, children: string -> seq<string>)
    requires ValidEnv(env) && overId != Some(activeId)
    requires drag.LengthDrag? || drag.TimeDrag?
    ensures var calls := DropCalls(activeId, overId, Some(TaskDrop(Some(at), fields)), Some(drag), env, children);
      var l := Length(ShiftTo(at - drag.start).0, ShiftTo(at - drag.start).1);
      && l.hour * 60 + l.minute == at - drag.start
      && (l.hour >= 0 && l.minute >= 0 <==> at >= drag.start)
      && (drag.LengthDrag? ==> calls == [PatchTasks([drag.id], LengthPatch(l)), Clear])
      && (drag.TimeDrag? ==> calls == [SetNewTask(Draft(Some(drag.start), Some(l))), Clear])
  {
  }

  /** Blocks and groups patch all their tasks with the drop data, a task
      only itself, and a due handle only the `due` field of its task. */
  lemma PatchTargets(activeId: string, overId: Option<string>, drop: DropData, drag: DragData,
                     env: Env, children: string -> seq<string>)
    requires ValidEnv(env) && overId != Some(activeId) && drop.TaskDrop?
    requires drag.BlockDrag? || drag.GroupDrag? || drag.TaskDrag? || drag.DueDrag?
    ensures var calls := DropCalls(activeId, overId, Some(drop), Some(drag), env, children);
      && (drag.BlockDrag? || drag.GroupDrag? ==> calls == [PatchTasks(drag.ids, FieldsPatch(drop)), Clear])
      && (drag.TaskDrag? ==> calls == [PatchTasks([drag.id], FieldsPatch(drop)), Clear])
      && (drag.DueDrag? ==> calls == [PatchTasks([drag.taskId], DuePatch(drop.scheduled)), Clear])
  {
  }

  /** The drag data is cleared last on every path, and only there, except
      the early return of a time or length drag dropped without a time,
      which issues nothing at all. */
  lemma DragDataCleared(activeId: string, overId: Option<string>, drop: Option<DropData>, drag: Option<DragData>,
                        env: Env, children: string -> seq<string>)
    requires ValidEnv(env)
    requires ShiftReached(activeId, overId, drop, drag) ==> Groups(env, env.order).0 != []
    ensures var calls := DropCalls(activeId, overId, drop, drag, env, children);
      var early := overId != Some(activeId) && drag.Some? && (drag.value.TimeDrag? || drag.value.LengthDrag?)
        && drop.Some? && drop.value.TaskDrop? && drop.value.scheduled.None?;
      && (calls == [] <==> early)
      && (!early ==> calls[|calls| - 1] == Clear && forall k :: 0 <= k < |calls| - 1 ==> calls[k] != Clear)
  {
    if overId != Some(activeId) && !(drag == Some(NewButtonDrag) && drop.None?) && drop.Some? && drag.Some?
      && drop.value.TaskDrop?
    {
      TaskDropCleared(drag.value, drop.value, env);
    }
  }

  /** The clearing of a drop on task fields. */
  lemma TaskDropCleared(drag: DragData, drop: DropData, env: Env)
    requires drop.TaskDrop? && ValidEnv(env)
    requires drag.NowDrag? && drop.scheduled.Some? ==> Groups(env, env.order).0 != []
    ensures var calls := TaskDropCalls(drag, drop, env);
      var early := (drag.TimeDrag? || drag.LengthDrag?) && drop.scheduled.None?;
      && (calls == [] <==> early)
      && (!early ==> calls[|calls| - 1] == Clear && forall k :: 0 <= k < |calls| - 1 ==> calls[k] != Clear)
  {
    if drag.NowDrag? && drop.scheduled.Some? {
      var shift := ShiftCalls(env, drop.scheduled.value);
      ShiftCallsNoClear(env, drop.scheduled.value);
      assert TaskDropCalls(drag, drop, env) == shift + [Clear];
    }
  }

  /** The `now` shift issues only the question and patches. */
  lemma ShiftCallsNoClear(env: Env, dropAt: int)
    requires ValidEnv(env) && Groups(env, env.order).0 != []
    ensures forall k :: 0 <= k < |ShiftCalls(env, dropAt)| ==>
      ShiftCalls(env, dropAt)[k].ConfirmShift? || ShiftCalls(env, dropAt)[k].PatchTasks?
  {
    var g := Groups(env, env.order);
    SortedKeysListed(g.0, g.1);
  }

  /** `onDragStart`: the active payload becomes the store's drag data. */
  method OnDragStart(data: DragData) returns (calls: seq<Call>)
    ensures calls == [SetDragData(Some(data))]
  {
    calls := [SetDragData(Some(data))];
  }
}
