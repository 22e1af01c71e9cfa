/**
 * The task table and the file order the planner keeps: `loadTasks`, which
 * rebuilds the table from Dataview's task items unless they are unchanged,
 * links children to their parents and merges new file paths into the file
 * order, and `updateFileOrder`, which moves one file in that order.
 */
module TaskTable {
  import opened Text
  import opened TaskRecord
  import opened TaskParse

  // ---- the task dictionary ----

  /** `tasks.map(task => task.id)`. */
  function Ids(ts: seq<Task>): (r: seq<string>)
    ensures |r| == |ts| && forall k :: 0 <= k < |ts| ==> r[k] == ts[k].id
  {
    seq(|ts|, k requires 0 <= k < |ts| => ts[k].id)
  }

  /** `tasks.map(task => task.path)`. */
  function Paths(ts: seq<Task>): (r: seq<string>)
    ensures |r| == |ts| && forall k :: 0 <= k < |ts| ==> r[k] == ts[k].path
  {
    seq(|ts|, k requires 0 <= k < |ts| => ts[k].path)
  }

  /** `newTasks.flatMap(item => this.textToTask(item))`. */
  function Converted(items: seq<RawItem>): (r: seq<Task>)
    requires forall k :: 0 <= k < |items| ==> ValidItem(items[k])
    ensures |r| == |items|
    ensures forall k :: 0 <= k < |items| ==> r[k] == TextToTask(items[k])
  {
    seq(|items|, k requires 0 <= k < |items| => TextToTask(items[k]))
  }

  /** `_.fromPairs(tasks.map(task => [task.id, task]))`; the keys keep the
      order in which their ids first occur, which is `Uniq(Ids(ts))`
      because an id always holds `::` and so is never an array index. */
  function TaskDict(ts: seq<Task>): (r: map<string, Task>)
    ensures forall id :: id in r <==> id in Ids(ts)
    ensures forall id :: id in r ==> r[id].id == id
    decreases |ts|
  {
    if ts == [] then map[]
    else
      var t := ts[|ts| - 1];
      assert forall id :: id in Ids(ts) <==> id in Ids(ts[..|ts| - 1]) || id == t.id by {
        assert Ids(ts) == Ids(ts[..|ts| - 1]) + [t.id];
      }
      TaskDict(ts[..|ts| - 1])[t.id := t]
  }

  /** A later task with the same id replaces an earlier one. */
  lemma {:induction false} TaskDictLastWins(ts: seq<Task>, k: nat)
    requires k < |ts|
    requires forall j :: k < j < |ts| ==> ts[j].id != ts[k].id
    ensures TaskDict(ts)[ts[k].id] == ts[k]
    decreases |ts|
  {
    if k < |ts| - 1 {
      var p := ts[..|ts| - 1];
      assert p[k] == ts[k];
      assert forall j :: k < j < |p| ==> p[j].id != p[k].id by {
        assert forall j :: k < j < |p| ==> p[j] == ts[j];
      }
      TaskDictLastWins(p, k);
    }
  }

  // ---- parent resolution ----

  /** `order` lists only keys of `dict`. */
  predicate Listed(dict: map<string, Task>, order: seq<string>)
  {
    forall k :: k in order ==> k in dict
  }

  /** The id of the last task in `order` whose children list `c`: the one
      whose assignment to `parent` the loop leaves standing. */
  function LastLister(dict: map<string, Task>, order: seq<string>, c: string): (r: Option<string>)
    requires Listed(dict, order)
    ensures r.None? <==> forall k :: k in order ==> c !in dict[k].children
    ensures r.Some? ==> exists k :: k in order && c in dict[k].children && r.value == dict[k].id
    decreases |order|
  {
    if order == [] then None
    else
      var k := order[|order| - 1];
      assert order == order[..|order| - 1] + [k];
      if c in dict[k].children then Some(dict[k].id)
      else LastLister(dict, order[..|order| - 1], c)
  }

  /** `t` with its parent set to `p`, when there is one. */
  function Parented(t: Task, p: Option<string>): (r: Task)
    ensures r.(parent := t.parent) == t
    ensures r.parent == if p.Some? then p else t.parent
  {
    if p.Some? then t.(parent := p) else t
  }

  /** The table after the parent-resolution loops: every task listed as a
      child gets the id of its last lister as parent, ids missing from the
      table are skipped, and nothing else changes. */
  function Resolved(dict: map<string, Task>, order: seq<string>): (r: map<string, Task>)
    requires Listed(dict, order)
    ensures r.Keys == dict.Keys
    ensures forall c :: c in r ==> r[c].(parent := dict[c].parent) == dict[c]
  {
    map c | c in dict :: Parented(dict[c], LastLister(dict, order, c))
  }

  /** What parent resolution means for one task of the table. */
  lemma ResolvedParent(dict: map<string, Task>, order: seq<string>, c: string)
    requires Listed(dict, order) && c in dict
    ensures (forall k :: k in order ==> c !in dict[k].children) ==> Resolved(dict, order)[c] == dict[c]
    ensures (exists k :: k in order && c in dict[k].children) ==>
      exists k :: k in order && c in dict[k].children && Resolved(dict, order)[c].parent == Some(dict[k].id)
  {
    var l := LastLister(dict, order, c);
    if l.Some? {
      var k :| k in order && c in dict[k].children && l.value == dict[k].id;
      assert Resolved(dict, order)[c].parent == Some(dict[k].id);
    }
  }

  /** One more task of `order`: its listing decides, else the earlier ones. */
  lemma ListerStep(dict: map<string, Task>, order: seq<string>, i: nat, c: string)
    requires Listed(dict, order) && i < |order|
    ensures Listed(dict, order[..i]) && Listed(dict, order[..i + 1])
    ensures LastLister(dict, order[..i + 1], c) ==
      if c in dict[order[i]].children then Some(dict[order[i]].id) else LastLister(dict, order[..i], c)
  {
    assert forall k :: k in order[..i + 1] ==> k in order;
    assert order[..i + 1][..i] == order[..i];
  }

  /** The table when the parents of `order`'s listings are set. */
  ghost predicate ResolvedBy(resolved: map<string, Task>, dict: map<string, Task>, order: seq<string>)
    requires Listed(dict, order)
  {
    resolved.Keys == dict.Keys
    && forall c :: c in dict ==> resolved[c] == Parented(dict[c], LastLister(dict, order, c))
  }

  /** After the inner loop over the children of `order[i]`, the table is
      resolved by one more task of `order`. */
  lemma ResolvedByStep(resolved: map<string, Task>, dict: map<string, Task>, order: seq<string>, i: nat)
    requires Listed(dict, order) && i < |order|
    requires resolved.Keys == dict.Keys
    requires forall c :: c in dict ==>
      resolved[c] == Parented(dict[c], if c in dict[order[i]].children then Some(dict[order[i]].id) else LastLister(dict, order[..i], c))
    ensures Listed(dict, order[..i + 1])
    ensures ResolvedBy(resolved, dict, order[..i + 1])
  {
    forall c | c in dict
      ensures resolved[c] == Parented(dict[c], LastLister(dict, order[..i + 1], c))
    {
      ListerStep(dict, order, i, c);
    }
    ListerStep(dict, order, i, order[i]);
  }

  lemma ResolvedByAll(resolved: map<string, Task>, dict: map<string, Task>, order: seq<string>)
    requires Listed(dict, order) && ResolvedBy(resolved, dict, order)
    ensures resolved == Resolved(dict, order)
  {
  }

  /** The table inside the inner loop: the first `j` children of `task`
      have it as parent, the rest of the table is resolved by `done`. */
  ghost predicate ChildrenResolved(resolved: map<string, Task>, dict: map<string, Task>, done: seq<string>,
                                   task: Task, j: nat)
    requires Listed(dict, done) && j <= |task.children|
  {
    resolved.Keys == dict.Keys
    && forall c :: c in dict ==>
      resolved[c] == Parented(dict[c], if c in task.children[..j] then Some(task.id) else LastLister(dict, done, c))
  }

  /** One step of the inner loop keeps `ChildrenResolved`. */
  lemma ChildStep(resolved: map<string, Task>, dict: map<string, Task>, done: seq<string>, task: Task, j: nat)
    requires Listed(dict, done) && j < |task.children|
    requires ChildrenResolved(resolved, dict, done, task, j)
    ensures var child := task.children[j];
      ChildrenResolved(if child in resolved then resolved[child := resolved[child].(parent := Some(task.id))] else resolved,
        dict, done, task, j + 1)
  {
    assert task.children[..j + 1] == task.children[..j] + [task.children[j]];
  }

  /** The nested loops of src/services/obsidianApi.ts:269-275. */
  method ResolveParents(dict: map<string, Task>, order: seq<string>) returns (resolved: map<string, Task>)
    requires Listed(dict, order)
    ensures resolved == Resolved(dict, order)
  {
    resolved := dict;
    var i := 0;
    while i < |order|
      invariant 0 <= i <= |order|
      invariant Listed(dict, order[..i])
      invariant ResolvedBy(resolved, dict, order[..i])
    {
      var task := dict[order[i]];
      var j := 0;
      assert task.children[..0] == [];
      while j < |task.children|
        invariant 0 <= j <= |task.children|
        invariant ChildrenResolved(resolved, dict, order[..i], task, j)
      {
        var child := task.children[j];
        ChildStep(resolved, dict, order[..i], task, j);
        if child in resolved {
          resolved := resolved[child := resolved[child].(parent := Some(task.id))];
        }
        j := j + 1;
      }
      assert task.children[..j] == task.children;
      ResolvedByStep(resolved, dict, order, i);
      i := i + 1;
    }
    assert order[..i] == order;
    ResolvedByAll(resolved, dict, order);
  }

  // ---- the file order merge ----

  /** `newFileOrder.findIndex(otherFile => otherFile > file)`. */
  function FirstGreater(order: seq<string>, f: string): (r: Option<nat>)
    ensures r.None? ==> forall j :: 0 <= j < |order| ==> !Less(f, order[j])
    ensures r.Some? ==> r.value < |order| && Less(f, order[r.value])
    ensures r.Some? ==> forall j :: 0 <= j < r.value ==> !Less(f, order[j])
  {
    if order == [] then None
    else if Less(f, order[0]) then Some(0)
    else
      match FirstGreater(order[1..], f)
      case None => None
      case Some(k) => Some(k + 1)
  }

  /** One step of the merge loop: `file` spliced in before the first entry
      greater than it, or pushed at the end. */
  function MergeOne(order: seq<string>, f: string): (r: seq<string>)
  {
    match FirstGreater(order, f)
    case None => order + [f]
    case Some(k) => order[..k] + [f] + order[k..]
  }

  /** The merge loop over `paths`. */
  function MergeAll(order: seq<string>, paths: seq<string>): seq<string>
    decreases |paths|
  {
    if paths == [] then order
    else MergeOne(MergeAll(order, paths[..|paths| - 1]), paths[|paths| - 1])
  }

  /** One merge step inserts `f` once, after every entry not greater than
      it and before the first one that is. */
  lemma MergeOnePlaces(order: seq<string>, f: string)
    ensures exists k :: (0 <= k <= |order| && MergeOne(order, f) == order[..k] + [f] + order[k..]
      && (forall j :: 0 <= j < k ==> !Less(f, order[j]))
      && (k < |order| ==> Less(f, order[k])))
  {
    match FirstGreater(order, f)
    case None =>
      assert MergeOne(order, f) == order[..|order|] + [f] + order[|order|..];
    case Some(k) =>
  }

  /** The merge adds each path once and loses nothing. */
  lemma {:induction false} MergeAllMultiset(order: seq<string>, paths: seq<string>)
    ensures multiset(MergeAll(order, paths)) == multiset(order) + multiset(paths)
    decreases |paths|
  {
    if paths != [] {
      var ps := paths[..|paths| - 1];
      var f := paths[|paths| - 1];
      MergeAllMultiset(order, ps);
      assert paths == ps + [f];
      assert multiset(paths) == multiset(ps) + multiset{f};
      var m := MergeAll(order, ps);
      assert MergeAll(order, paths) == MergeOne(m, f);
      MergeOneMultiset(m, f);
    }
  }

  /** One merge step adds exactly the one file. */
  lemma MergeOneMultiset(m: seq<string>, f: string)
    ensures multiset(MergeOne(m, f)) == multiset(m) + multiset{f}
  {
    match FirstGreater(m, f)
    case None =>
    case Some(k) =>
      assert m == m[..k] + m[k..];
      assert multiset(m[..k] + [f] + m[k..]) == multiset(m[..k]) + multiset{f} + multiset(m[k..]);
  }

  /** `s` without the entries in `xs`, in order. */
  function Drop(s: seq<string>, xs: set<string>): (r: seq<string>)
    ensures |r| <= |s|
  {
    if s == [] then []
    else
      assert s == [s[0]] + s[1..];
      if s[0] in xs then Drop(s[1..], xs) else [s[0]] + Drop(s[1..], xs)
  }

  lemma {:induction false} DropConcat(a: seq<string>, b: seq<string>, xs: set<string>)
    ensures Drop(a + b, xs) == Drop(a, xs) + Drop(b, xs)
  {
    if a != [] {
      assert (a + b)[0] == a[0] && (a + b)[1..] == a[1..] + b;
      DropConcat(a[1..], b, xs);
      if a[0] in xs {
        assert Drop(a + b, xs) == Drop(a[1..] + b, xs);
        assert Drop(a, xs) == Drop(a[1..], xs);
      } else {
        assert Drop(a + b, xs) == [a[0]] + Drop(a[1..] + b, xs);
        assert Drop(a, xs) == [a[0]] + Drop(a[1..], xs);
        assert [a[0]] + (Drop(a[1..], xs) + Drop(b, xs)) == ([a[0]] + Drop(a[1..], xs)) + Drop(b, xs);
      }
    } else {
      assert a + b == b;
    }
  }

  lemma {:induction false} DropNothing(s: seq<string>, xs: set<string>)
    requires forall y :: y in s ==> y !in xs
    ensures Drop(s, xs) == s
  {
    if s != [] {
      assert s == [s[0]] + s[1..];
      DropNothing(s[1..], xs);
    }
  }

  /** Splicing in a dropped entry is invisible after the drop. */
  lemma DropSplice(m: seq<string>, k: nat, f: string, xs: set<string>)
    requires k <= |m| && f in xs
    ensures Drop(m[..k] + [f] + m[k..], xs) == Drop(m, xs)
  {
    var a, b := m[..k], m[k..];
    assert Drop([f], xs) == [] by {
      assert [f][1..] == [];
    }
    calc {
      Drop(a + [f] + b, xs);
      { DropConcat(a + [f], b, xs); }
      Drop(a + [f], xs) + Drop(b, xs);
      { DropConcat(a, [f], xs); }
      Drop(a, xs) + Drop(b, xs);
      { DropConcat(a, b, xs); }
      Drop(a + b, xs);
      { assert a + b == m; }
      Drop(m, xs);
    }
  }

  /** Every existing entry keeps its relative order: removing the merged
      paths gives back the old order. */
  lemma {:induction false} MergeAllKeepsOrder(order: seq<string>, paths: seq<string>, xs: set<string>)
    requires forall p :: p in paths ==> p in xs
    requires forall y :: y in order ==> y !in xs
    ensures Drop(MergeAll(order, paths), xs) == order
    decreases |paths|
  {
    if paths == [] {
      DropNothing(order, xs);
    } else {
      var ps := paths[..|paths| - 1];
      var f := paths[|paths| - 1];
      assert forall p :: p in ps ==> p in paths;
      MergeAllKeepsOrder(order, ps, xs);
      var m := MergeAll(order, ps);
      match FirstGreater(m, f)
      case None =>
        DropSplice(m, |m|, f, xs);
        assert m[..|m|] + [f] + m[|m|..] == m + [f];
      case Some(k) =>
        DropSplice(m, k, f, xs);
    }
  }

  /** `s` is in ascending string order. */
  ghost predicate Ascending(s: seq<string>)
  {
    forall i, j :: 0 <= i < j < |s| ==> !Less(s[j], s[i])
  }

  lemma MergeOneAscending(order: seq<string>, f: string)
    requires Ascending(order)
    ensures Ascending(MergeOne(order, f))
  {
    var r := MergeOne(order, f);
    match FirstGreater(order, f)
    case None =>
      forall i, j | 0 <= i < j < |r| ensures !Less(r[j], r[i]) {
        if j == |order| {
          assert r[i] == order[i];
        }
      }
    case Some(k) =>
      forall i, j | 0 <= i < j < |r| ensures !Less(r[j], r[i]) {
        if i < k && j == k {
          assert r[i] == order[i];
        } else if i == k {
          assert r[j] == order[j - 1];
          if j - 1 > k {
            LessTotal(order[k], order[j - 1]);
            if order[k] != order[j - 1] {
              LessTransitive(f, order[k], order[j - 1]);
            }
          }
          LessAsymmetric(f, order[j - 1]);
        } else if i < k && j < k {
          assert r[i] == order[i];
          assert r[j] == order[j];
        } else if i < k {
          assert r[i] == order[i];
          assert r[j] == order[j - 1];
        } else {
          assert r[i] == order[i - 1];
          assert r[j] == order[j - 1];
        }
      }
  }

  /** A file order in ascending order stays so after the merge. */
  lemma {:induction false} MergeAllAscending(order: seq<string>, paths: seq<string>)
    requires Ascending(order)
    ensures Ascending(MergeAll(order, paths))
    decreases |paths|
  {
    if paths != [] {
      MergeAllAscending(order, paths[..|paths| - 1]);
      MergeOneAscending(MergeAll(order, paths[..|paths| - 1]), paths[|paths| - 1]);
    }
  }

  /** The merge loop of src/services/obsidianApi.ts:281-286. */
  method MergeFileOrder(order: seq<string>, paths: seq<string>) returns (merged: seq<string>)
    ensures merged == MergeAll(order, paths)
  {
    merged := order;
    var i := 0;
    while i < |paths|
      invariant 0 <= i <= |paths|
      invariant merged == MergeAll(order, paths[..i])
    {
      var file := paths[i];
      assert paths[..i + 1][..i] == paths[..i];
      var afterFile := FirstGreater(merged, file);
      if afterFile.None? {
        merged := merged + [file];
      } else {
        merged := merged[..afterFile.value] + [file] + merged[afterFile.value..];
      }
      i := i + 1;
    }
    assert paths[..i] == paths;
  }

  /** The entries of `s` not in `order`, in order. */
  function Unlisted(s: seq<string>, order: seq<string>): (r: seq<string>)
    ensures forall y :: y in r <==> y in s && y !in order
    ensures NoDuplicates(s) ==> NoDuplicates(r)
  {
    if s == [] then []
    else
      assert s == [s[0]] + s[1..];
      var rest := Unlisted(s[1..], order);
      if s[0] in order then rest
      else
        assert NoDuplicates(s) ==> s[0] !in s[1..];
        [s[0]] + rest
  }

  /** `_.uniq(paths).filter(path => !fileOrder.includes(path)).sort()`. */
  function NewPaths(paths: seq<string>, order: seq<string>): (r: seq<string>)
    ensures forall y :: y in r <==> y in paths && y !in order
    ensures Ascending(r)
  {
    var u := Unlisted(Uniq(paths), order);
    var r := SortBy(u, (x: string) => x);
    SortBySorted(u, (x: string) => x);
    assert forall y :: y in r <==> y in multiset(r);
    r
  }

  /** Each path new to the file order goes into it exactly once, and the
      entries already there keep their relative order. */
  lemma LoadedFileOrder(order: seq<string>, paths: seq<string>)
    ensures var merged := MergeAll(order, NewPaths(paths, order));
      && (forall p :: p in paths ==> p in merged)
      && (forall p :: p in merged ==> p in paths || p in order)
      && (forall p :: p in paths && p !in order ==> multiset(merged)[p] == 1)
      && Drop(merged, (set p | p in paths && p !in order)) == order
  {
    var added := NewPaths(paths, order);
    var u := Unlisted(Uniq(paths), order);
    var merged := MergeAll(order, added);
    MergeAllMultiset(order, added);
    assert multiset(added) == multiset(u);
    forall p | p in paths && p !in order
      ensures multiset(merged)[p] == 1
    {
      assert multiset(order)[p] == 0;
      NoDuplicatesCount(u, p);
    }
    forall p | p in paths
      ensures p in merged
    {
      if p !in order {
        assert p in multiset(merged);
      } else {
        assert p in multiset(merged);
      }
    }
    forall p | p in merged
      ensures p in paths || p in order
    {
      assert p in multiset(merged);
      assert p in multiset(order) || p in multiset(added);
    }
    var xs := set p | p in paths && p !in order;
    MergeAllKeepsOrder(order, added, xs);
  }

  lemma {:induction false} NoDuplicatesCount(s: seq<string>, x: string)
    requires NoDuplicates(s) && x in s
    ensures multiset(s)[x] == 1
  {
    assert s == [s[0]] + s[1..];
    if s[0] == x {
      assert x !in s[1..];
    } else {
      NoDuplicatesCount(s[1..], x);
    }
  }

  // ---- reordering one file ----

  /** A file order entry moved: `file` removed everywhere, then spliced in
      at the index `before` had in the order as it was. `None` stands for
      the thrown error when `before` is not listed. */
  function Reordered(order: seq<string>, file: string, before: string): (r: Option<seq<string>>)
    ensures r.None? <==> before !in order
  {
    match IndexOf(order, before)
    case None => None
    case Some(beforeIndex) => Some(InsertAt(Without(order, file), beforeIndex, file))
  }

  function Min(a: int, b: int): int
  {
    if a <= b then a else b
  }

  lemma {:induction false} WithoutConcat(a: seq<string>, b: seq<string>, x: string)
    ensures Without(a + b, x) == Without(a, x) + Without(b, x)
  {
    if a != [] {
      assert (a + b)[0] == a[0] && (a + b)[1..] == a[1..] + b;
      WithoutConcat(a[1..], b, x);
      if a[0] == x {
        assert Without(a + b, x) == Without(a[1..] + b, x);
        assert Without(a, x) == Without(a[1..], x);
      } else {
        assert Without(a + b, x) == [a[0]] + Without(a[1..] + b, x);
        assert Without(a, x) == [a[0]] + Without(a[1..], x);
        assert [a[0]] + (Without(a[1..], x) + Without(b, x)) == ([a[0]] + Without(a[1..], x)) + Without(b, x);
      }
    } else {
      assert a + b == b;
    }
  }

  lemma {:induction false} WithoutAbsent(s: seq<string>, x: string)
    requires x !in s
    ensures Without(s, x) == s
  {
    if s != [] {
      assert s == [s[0]] + s[1..];
      WithoutAbsent(s[1..], x);
    }
  }

  lemma {:induction false} WithoutLength(s: seq<string>, x: string)
    ensures |Without(s, x)| + multiset(s)[x] == |s|
  {
    if s != [] {
      assert s == [s[0]] + s[1..];
      WithoutLength(s[1..], x);
    }
  }

  /** `file` spliced into a list without it is its only occurrence. */
  lemma SpliceOnce(pulled: seq<string>, at: nat, file: string)
    requires at <= |pulled| && file !in pulled
    ensures var r := pulled[..at] + [file] + pulled[at..];
      && r[at] == file
      && multiset(r)[file] == 1
      && Without(r, file) == pulled
  {
    var a, b := pulled[..at], pulled[at..];
    assert a + b == pulled;
    assert file !in a && file !in b;
    WithoutConcat(a + [file], b, file);
    WithoutConcat(a, [file], file);
    WithoutAbsent(a, file);
    WithoutAbsent(b, file);
    assert Without([file], file) == [] by {
      assert [file][1..] == [];
    }
    assert multiset(a)[file] == 0 && multiset(b)[file] == 0;
    assert multiset(a + [file] + b) == multiset(a) + multiset{file} + multiset(b);
  }

  /** `updateFileOrder`: `file` occurs exactly once, at `before`'s old index
      (or at the end if the removal shortened the list below it), and every
      other entry keeps its relative order. */
  lemma ReorderedPlaces(order: seq<string>, file: string, before: string)
    requires before in order
    ensures var r := Reordered(order, file, before).value;
      var pulled := Without(order, file);
      var beforeIndex := IndexOf(order, before).value;
      && |r| == |pulled| + 1
      && r[Min(beforeIndex, |pulled|)] == file
      && multiset(r)[file] == 1
      && Without(r, file) == pulled
  {
    var pulled := Without(order, file);
    var k := IndexOf(order, before).value;
    var at := Min(k, |pulled|);
    assert Reordered(order, file, before).value == pulled[..at] + [file] + pulled[at..] by {
      if k > |pulled| {
        assert pulled[..|pulled|] == pulled && pulled[|pulled|..] == [];
      }
    }
    SpliceOnce(pulled, at, file);
  }

  /** Without repeated entries the moved file lands exactly at `before`'s
      old index. */
  lemma ReorderedAtIndex(order: seq<string>, file: string, before: string)
    requires before in order && NoDuplicates(order)
    ensures var r := Reordered(order, file, before).value;
      var beforeIndex := IndexOf(order, before).value;
      beforeIndex < |r| && r[beforeIndex] == file
  {
    ReorderedPlaces(order, file, before);
    WithoutLength(order, file);
    if file in order {
      NoDuplicatesCount(order, file);
    }
  }

  // ---- the planner ----

  /** The store and settings state `loadTasks` and `updateFileOrder` keep:
      the last serialised task list, the file order and the task table. */
  class Planner {
    var previousLoadTasks: Option<string>
    var fileOrder: seq<string>
    var tasks: map<string, Task>

    constructor(savedOrder: seq<string>)
      ensures previousLoadTasks.None? && fileOrder == savedOrder && tasks == map[]
    {
      previousLoadTasks := None;
      fileOrder := savedOrder;
      tasks := map[];
    }

    /** `loadTasks` on the already filtered task items; `serialize` stands
        for `JSON.stringify`. */
    method LoadTasks(newTasks: seq<RawItem>, serialize: seq<RawItem> -> string)
      requires forall k :: 0 <= k < |newTasks| ==> ValidItem(newTasks[k])
      modifies this
      ensures old(previousLoadTasks) == Some(serialize(newTasks)) ==>
        previousLoadTasks == old(previousLoadTasks) && fileOrder == old(fileOrder) && tasks == old(tasks)
      ensures old(previousLoadTasks) != Some(serialize(newTasks)) ==>
        var ts := Converted(newTasks);
        && previousLoadTasks == Some(serialize(newTasks))
        && tasks == Resolved(TaskDict(ts), Uniq(Ids(ts)))
        && fileOrder == MergeAll(old(fileOrder), NewPaths(Paths(ts), old(fileOrder)))
    {
      var newTaskString := serialize(newTasks);
      if Some(newTaskString) == previousLoadTasks {
        return;
      }
      previousLoadTasks := Some(newTaskString);
      var ts := Converted(newTasks);
      var tasksDict := TaskDict(ts);
      var resolved := ResolveParents(tasksDict, Uniq(Ids(ts)));
      var filePaths := NewPaths(Paths(ts), fileOrder);
      var newFileOrder := MergeFileOrder(fileOrder, filePaths);
      fileOrder := newFileOrder;
      tasks := resolved;
    }

    /** `updateFileOrder`; `false` stands for the thrown error, which leaves
        everything as it was. */
    method UpdateFileOrder(file: string, before: string) returns (found: bool)
      modifies this
      ensures found <==> before in old(fileOrder)
      ensures found ==> fileOrder == Reordered(old(fileOrder), file, before).value
      ensures !found ==> fileOrder == old(fileOrder)
      ensures previousLoadTasks == old(previousLoadTasks) && tasks == old(tasks)
    {
      var beforeIndex := IndexOf(fileOrder, before);
      if beforeIndex.None? {
        return false;
      }
      var newFileOrder := Without(fileOrder, file);
      newFileOrder := InsertAt(newFileOrder, beforeIndex.value, file);
      fileOrder := newFileOrder;
      return true;
    }
  }
}
