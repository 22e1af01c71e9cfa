/**
 * The timeline grouping of the Hours component: a start-ordered list of
 * blocks is folded into top-level blocks, each carrying the blocks that start
 * before its own end, and the empty time around them is covered by filler
 * spans. Timestamps are minute counts; the source compares ISO strings, whose
 * order is time order for well-formed values.
 */
module Hours {

  /** A block as the component receives it. `rawEnd` is the end that the
      block's own content gives it (getEndISO in the source). */
  datatype Block = Block(start: int, rawEnd: int, items: seq<string>)

  /** A top-level block after grouping: the block itself, the end it is drawn
      to (possibly extended) and the blocks nested inside it. */
  datatype Formatted = Formatted(block: Block, end: int, nested: seq<Block>)

  /** An empty stretch of time drawn between blocks. The source always chops
      the end of a filler, so only the start flag varies. */
  datatype Filler = Filler(from: int, to: int, chopStart: bool)

  /** What the component draws, top to bottom. */
  datatype Span = FillerSpan(filler: Filler) | BlockSpan(from: int, to: int)

  /** Number of leading blocks of `s` that start strictly before `end`: the
      run the inner loop absorbs. */
  function NestedCount(s: seq<Block>, end: int): (n: nat)
    ensures n <= |s|
    ensures forall k :: 0 <= k < n ==> s[k].start < end
    ensures n < |s| ==> s[n].start >= end
  {
    if s == [] || s[0].start >= end then 0 else 1 + NestedCount(s[1..], end)
  }

  /** The end a top-level block is drawn to, given the blocks after its nested
      run: a zero-length block is stretched to the next top-level start (or the
      window end) when extension is on. */
  function EffectiveEnd(b: Block, rest: seq<Block>, extend: bool, windowEnd: int): int
  {
    if extend && b.rawEnd == b.start then
      (if rest == [] then windowEnd else rest[0].start)
    else b.rawEnd
  }

  /** The grouping as a recursive definition: the first block takes the run of
      blocks starting before its raw end, and the rest is grouped again. */
  function Group(blocks: seq<Block>, extend: bool, windowEnd: int): seq<Formatted>
    decreases |blocks|
  {
    if blocks == [] then []
    else
      var b := blocks[0];
      var n := NestedCount(blocks[1..], b.rawEnd);
      var rest := blocks[1 + n..];
      [Formatted(b, EffectiveEnd(b, rest, extend, windowEnd), blocks[1..1 + n])]
        + Group(rest, extend, windowEnd)
  }

  /** The inner loop of the component: from top-level block `i`, take the
      following blocks while they start before its raw end. Returns them and
      the index of the last block taken (`i` itself when none is). */
  method TakeNested(blocks: seq<Block>, i: nat) returns (nestedBlocks: seq<Block>, last: nat)
    requires i < |blocks|
    ensures i <= last < |blocks|
    ensures last - i == NestedCount(blocks[i + 1..], blocks[i].rawEnd)
    ensures nestedBlocks == blocks[i + 1..last + 1]
  {
    var thisEnd := blocks[i].rawEnd;
    nestedBlocks := [];
    last := i;
    while last + 1 < |blocks| && blocks[last + 1].start < thisEnd
      invariant i <= last < |blocks|
      invariant nestedBlocks == blocks[i + 1..last + 1]
      invariant forall k :: i + 1 <= k <= last ==> blocks[k].start < thisEnd
    {
      assert blocks[i + 1..last + 2] == blocks[i + 1..last + 1] + [blocks[last + 1]];
      nestedBlocks := nestedBlocks + [blocks[last + 1]];
      last := last + 1;
    }
    NestedRunEnds(blocks[i + 1..], thisEnd, last - i);
  }

  /** The loop of the component: `i` walks the blocks, the inner loop pushes
      nested blocks and advances `i` past them. */
  method FormatBlocks(blocks: seq<Block>, extendBlocks: bool, endISO: int)
    returns (formatted: seq<Formatted>)
    ensures formatted == Group(blocks, extendBlocks, endISO)
  {
    formatted := [];
    var i := 0;
    assert blocks[0..] == blocks;
    while i < |blocks|
      invariant 0 <= i <= |blocks|
      invariant formatted + Group(blocks[i..], extendBlocks, endISO) == Group(blocks, extendBlocks, endISO)
    {
      var thisBlock := blocks[i];
      var nestedBlocks, last := TakeNested(blocks, i);
      var end := EffectiveEnd(thisBlock, blocks[last + 1..], extendBlocks, endISO);
      var step := [Formatted(thisBlock, end, nestedBlocks)];
      GroupStep(blocks, i, last, extendBlocks, endISO);
      AppendStep(formatted, step, Group(blocks[i..], extendBlocks, endISO), Group(blocks[last + 1..], extendBlocks, endISO));
      formatted := formatted + step;
      i := last + 1;
    }
  }

  /** A run of `n` blocks starting before `end`, followed by none or by one
      starting at or after it, is exactly the run NestedCount measures. */
  lemma NestedRunEnds(s: seq<Block>, end: int, n: nat)
    requires n <= |s|
    requires forall k :: 0 <= k < n ==> s[k].start < end
    requires n < |s| ==> s[n].start >= end
    ensures NestedCount(s, end) == n
  {
  }

  /** One turn of the outer loop: the blocks from `first` group into the
      block at `first` with its run up to `last`, then the rest. */
  lemma GroupStep(blocks: seq<Block>, first: nat, last: nat, extend: bool, windowEnd: int)
    requires first <= last < |blocks|
    requires last - first == NestedCount(blocks[first + 1..], blocks[first].rawEnd)
    ensures Group(blocks[first..], extend, windowEnd)
      == [Formatted(blocks[first],
                    EffectiveEnd(blocks[first], blocks[last + 1..], extend, windowEnd),
                    blocks[first + 1..last + 1])]
         + Group(blocks[last + 1..], extend, windowEnd)
  {
    var s := blocks[first..];
    assert s[0] == blocks[first];
    assert s[1..] == blocks[first + 1..];
    assert s[1 + (last - first)..] == blocks[last + 1..];
    assert s[1..1 + (last - first)] == blocks[first + 1..last + 1];
  }

  lemma AppendStep<T>(done: seq<T>, step: seq<T>, todo: seq<T>, rest: seq<T>)
    requires todo == step + rest
    ensures (done + step) + rest == done + todo
  {
  }

  /** All blocks in drawing order: each top-level block followed by its
      nested blocks. */
  function Flatten(fs: seq<Formatted>): seq<Block>
  {
    if fs == [] then [] else [fs[0].block] + fs[0].nested + Flatten(fs[1..])
  }

  /** Every input block appears exactly once, top-level or nested, and input
      order is kept. */
  lemma {:induction false} GroupKeepsEveryBlock(blocks: seq<Block>, extend: bool, windowEnd: int)
    ensures Flatten(Group(blocks, extend, windowEnd)) == blocks
    decreases |blocks|
  {
    if blocks != [] {
      var n := NestedCount(blocks[1..], blocks[0].rawEnd);
      var rest := blocks[1 + n..];
      GroupKeepsEveryBlock(rest, extend, windowEnd);
      var g := Group(blocks, extend, windowEnd);
      assert g[1..] == Group(rest, extend, windowEnd);
      assert blocks == [blocks[0]] + blocks[1..1 + n] + rest;
    }
  }

  /** Each nested block starts strictly before the raw end of the top-level
      block it sits in (and only that block's end is compared). */
  lemma {:induction false} NestedStartBeforeOwnerEnd(blocks: seq<Block>, extend: bool, windowEnd: int)
    ensures var g := Group(blocks, extend, windowEnd);
      forall i, k :: 0 <= i < |g| && 0 <= k < |g[i].nested| ==> g[i].nested[k].start < g[i].block.rawEnd
    decreases |blocks|
  {
    if blocks != [] {
      var n := NestedCount(blocks[1..], blocks[0].rawEnd);
      var rest := blocks[1 + n..];
      NestedStartBeforeOwnerEnd(rest, extend, windowEnd);
      var g := Group(blocks, extend, windowEnd);
      assert g[1..] == Group(rest, extend, windowEnd);
      forall i, k | 0 <= i < |g| && 0 <= k < |g[i].nested|
        ensures g[i].nested[k].start < g[i].block.rawEnd
      {
        if i > 0 {
          assert g[i] == g[1..][i - 1];
        } else {
          assert g[0].nested[k] == blocks[1..][k];
        }
      }
    }
  }

  /** Each following top-level block starts at or after the raw end of the
      top-level block before it. */
  lemma {:induction false} TopLevelStartsAfterPreviousEnd(blocks: seq<Block>, extend: bool, windowEnd: int)
    ensures forall i :: 0 <= i < |Group(blocks, extend, windowEnd)| - 1 ==>
      Group(blocks, extend, windowEnd)[i + 1].block.start >= Group(blocks, extend, windowEnd)[i].block.rawEnd
    decreases |blocks|
  {
    if blocks != [] {
      var n := NestedCount(blocks[1..], blocks[0].rawEnd);
      var rest := blocks[1 + n..];
      TopLevelStartsAfterPreviousEnd(rest, extend, windowEnd);
      var g := Group(blocks, extend, windowEnd);
      assert g[1..] == Group(rest, extend, windowEnd);
      if |g| > 1 {
        assert rest != [];
        assert g[1].block == rest[0];
        assert rest[0] == blocks[1..][n];
      }
      forall i | 0 <= i < |g| - 1 ensures g[i + 1].block.start >= g[i].block.rawEnd {
        if i > 0 {
          assert g[i] == g[1..][i - 1] && g[i + 1] == g[1..][i];
        }
      }
    }
  }

  /** The first top-level block is the first input block, and only an empty
      input groups to nothing. */
  lemma GroupHead(blocks: seq<Block>, extend: bool, windowEnd: int)
    ensures (Group(blocks, extend, windowEnd) == []) == (blocks == [])
    ensures blocks != [] ==> Group(blocks, extend, windowEnd)[0].block == blocks[0]
  {
  }

  /** The start of the top-level block after position `i`, or the window end. */
  function NextStart(fs: seq<Formatted>, i: nat, windowEnd: int): int
  {
    if i + 1 < |fs| then fs[i + 1].block.start else windowEnd
  }

  /** Extension rule: a zero-length block is drawn to the next top-level start
      (or the window end) when extension is on; any other block keeps its raw
      end. */
  lemma {:induction false} ExtensionRule(blocks: seq<Block>, extend: bool, windowEnd: int)
    ensures var g := Group(blocks, extend, windowEnd);
      forall i :: 0 <= i < |g| ==>
        g[i].end == (if extend && g[i].block.rawEnd == g[i].block.start
                     then NextStart(g, i, windowEnd) else g[i].block.rawEnd)
    decreases |blocks|
  {
    if blocks != [] {
      var n := NestedCount(blocks[1..], blocks[0].rawEnd);
      var rest := blocks[1 + n..];
      ExtensionRule(rest, extend, windowEnd);
      var g := Group(blocks, extend, windowEnd);
      var g' := Group(rest, extend, windowEnd);
      assert g[1..] == g';
      forall i | 0 <= i < |g|
        ensures g[i].end == (if extend && g[i].block.rawEnd == g[i].block.start
                             then NextStart(g, i, windowEnd) else g[i].block.rawEnd)
      {
        if i > 0 {
          assert g[i] == g'[i - 1];
          assert NextStart(g, i, windowEnd) == NextStart(g', i - 1, windowEnd);
        } else {
          GroupHead(rest, extend, windowEnd);
        }
      }
    }
  }

  /** The filler before the first block: from the window start to the first
      block (or the whole window), chopped at its start when asked to or when
      the window starts exactly at that first block. */
  function LeadingFiller(startISO: int, endISO: int, chopStart: bool, fs: seq<Formatted>): Filler
  {
    var to := if fs == [] then endISO else fs[0].block.start;
    Filler(startISO, to, chopStart || startISO == to)
  }

  /** The filler drawn after top-level block `i`: from its drawn end to the
      next top-level start (or the window end), chopped at its start exactly
      when the block has zero drawn length. */
  function TrailingFiller(fs: seq<Formatted>, i: nat, endISO: int): Filler
    requires i < |fs|
  {
    Filler(fs[i].end, NextStart(fs, i, endISO), fs[i].block.start == fs[i].end)
  }

  /** The spans of blocks `i..` with their trailing fillers (left out when
      times are hidden). */
  function BodySpans(fs: seq<Formatted>, i: nat, endISO: int, hideTimes: bool): seq<Span>
    requires i <= |fs|
    decreases |fs| - i
  {
    if i == |fs| then []
    else
      [BlockSpan(fs[i].block.start, fs[i].end)]
        + (if hideTimes then [] else [FillerSpan(TrailingFiller(fs, i, endISO))])
        + BodySpans(fs, i + 1, endISO, hideTimes)
  }

  /** The whole drawing of one Hours component over `[startISO, endISO]`. */
  function Layout(startISO: int, endISO: int, chopStart: bool, fs: seq<Formatted>, hideTimes: bool): seq<Span>
  {
    [FillerSpan(LeadingFiller(startISO, endISO, chopStart, fs))] + BodySpans(fs, 0, endISO, hideTimes)
  }

  function SpanFrom(s: Span): int
  {
    match s
    case FillerSpan(f) => f.from
    case BlockSpan(from, _) => from
  }

  function SpanTo(s: Span): int
  {
    match s
    case FillerSpan(f) => f.to
    case BlockSpan(_, to) => to
  }

  /** Spans that cover `[from, to]` edge to edge, each running forward. */
  ghost predicate Tiles(spans: seq<Span>, from: int, to: int)
  {
    && |spans| > 0
    && SpanFrom(spans[0]) == from
    && SpanTo(spans[|spans| - 1]) == to
    && (forall k :: 0 <= k < |spans| ==> SpanFrom(spans[k]) <= SpanTo(spans[k]))
    && (forall k :: 0 <= k < |spans| - 1 ==> SpanTo(spans[k]) == SpanFrom(spans[k + 1]))
  }

  /** Blocks that lie inside the window and do not end before they start. */
  ghost predicate InsideWindow(blocks: seq<Block>, startISO: int, endISO: int)
  {
    forall k :: 0 <= k < |blocks| ==>
      startISO <= blocks[k].start <= blocks[k].rawEnd <= endISO
  }

  lemma {:induction false} GroupTopLevelInside(blocks: seq<Block>, extend: bool, startISO: int, endISO: int)
    requires InsideWindow(blocks, startISO, endISO)
    ensures forall i :: 0 <= i < |Group(blocks, extend, endISO)| ==>
      startISO <= Group(blocks, extend, endISO)[i].block.start <= Group(blocks, extend, endISO)[i].block.rawEnd <= endISO
  {
    var g := Group(blocks, extend, endISO);
    GroupKeepsEveryBlock(blocks, extend, endISO);
    forall i | 0 <= i < |g|
      ensures startISO <= g[i].block.start <= g[i].block.rawEnd <= endISO
    {
      FlattenHasTop(g, i);
    }
  }

  lemma {:induction false} FlattenHasTop(fs: seq<Formatted>, i: nat)
    requires i < |fs|
    ensures fs[i].block in Flatten(fs)
  {
    if i > 0 {
      FlattenHasTop(fs[1..], i - 1);
      assert fs[1..][i - 1] == fs[i];
    }
  }

  lemma {:induction false} BodyTiles(fs: seq<Formatted>, i: nat, endISO: int, extend: bool)
    requires i < |fs|
    requires forall j :: 0 <= j < |fs| ==> fs[j].block.start <= fs[j].block.rawEnd <= endISO
    requires forall j :: 0 <= j < |fs| - 1 ==> fs[j + 1].block.start >= fs[j].block.rawEnd
    requires forall j :: 0 <= j < |fs| ==>
      fs[j].end == (if extend && fs[j].block.rawEnd == fs[j].block.start
                    then NextStart(fs, j, endISO) else fs[j].block.rawEnd)
    ensures Tiles(BodySpans(fs, i, endISO, false), fs[i].block.start, endISO)
    decreases |fs| - i
  {
    var head := [BlockSpan(fs[i].block.start, fs[i].end), FillerSpan(TrailingFiller(fs, i, endISO))];
    var spans := BodySpans(fs, i, endISO, false);
    assert spans == head + BodySpans(fs, i + 1, endISO, false);
    assert fs[i].block.start <= fs[i].end <= NextStart(fs, i, endISO);
    if i + 1 < |fs| {
      BodyTiles(fs, i + 1, endISO, extend);
    }
  }

  /** Where each piece lands when times are shown: block `j` and then its
      trailing filler. */
  lemma {:induction false} ShownBodyAt(fs: seq<Formatted>, i: nat, endISO: int)
    requires i <= |fs|
    ensures var spans := BodySpans(fs, i, endISO, false);
      && |spans| == 2 * (|fs| - i)
      && forall j :: i <= j < |fs| ==>
           && spans[2 * (j - i)] == BlockSpan(fs[j].block.start, fs[j].end)
           && spans[2 * (j - i) + 1] == FillerSpan(TrailingFiller(fs, j, endISO))
    decreases |fs| - i
  {
    if i < |fs| {
      ShownBodyAt(fs, i + 1, endISO);
      var spans := BodySpans(fs, i, endISO, false);
      var tail := BodySpans(fs, i + 1, endISO, false);
      assert spans == [spans[0], spans[1]] + tail;
      assert |spans| == 2 * (|fs| - i);
      forall j | i <= j < |fs|
        ensures spans[2 * (j - i)] == BlockSpan(fs[j].block.start, fs[j].end)
        ensures spans[2 * (j - i) + 1] == FillerSpan(TrailingFiller(fs, j, endISO))
      {
        if j > i {
          assert 2 * (j - i) == 2 * (j - (i + 1)) + 2;
          AfterPair(spans[0], spans[1], tail, 2 * (j - (i + 1)));
          AfterPair(spans[0], spans[1], tail, 2 * (j - (i + 1)) + 1);
        }
      }
    }
  }

  lemma AfterPair(a: Span, b: Span, tail: seq<Span>, k: nat)
    requires k < |tail|
    ensures ([a, b] + tail)[k + 2] == tail[k]
  {
  }

  /** Where each piece lands when times are hidden: the blocks alone. */
  lemma {:induction false} HiddenBodyAt(fs: seq<Formatted>, i: nat, endISO: int)
    requires i <= |fs|
    ensures var spans := BodySpans(fs, i, endISO, true);
      && |spans| == |fs| - i
      && forall j :: i <= j < |fs| ==> spans[j - i] == BlockSpan(fs[j].block.start, fs[j].end)
    decreases |fs| - i
  {
    if i < |fs| {
      HiddenBodyAt(fs, i + 1, endISO);
      var spans := BodySpans(fs, i, endISO, true);
      var tail := BodySpans(fs, i + 1, endISO, true);
      assert spans == [spans[0]] + tail;
    }
  }

  /** The drawing of a window: the first span is the leading filler, from the
      window start to the first top-level block (or the window end), chopped
      at its start when asked to or when the window starts exactly there;
      after each top-level block comes, unless times are hidden, a filler from
      its drawn end to the next top-level start (or the window end), chopped at
      its start exactly when the block is drawn with zero length. */
  lemma LayoutShape(startISO: int, endISO: int, chopStart: bool, fs: seq<Formatted>, hideTimes: bool)
    ensures var spans := Layout(startISO, endISO, chopStart, fs, hideTimes);
      var first := if fs == [] then endISO else fs[0].block.start;
      && spans[0] == FillerSpan(Filler(startISO, first, chopStart || startISO == first))
      && (!hideTimes ==>
            && |spans| == 1 + 2 * |fs|
            && forall j :: 0 <= j < |fs| ==>
                 && spans[1 + 2 * j] == BlockSpan(fs[j].block.start, fs[j].end)
                 && spans[2 + 2 * j] == FillerSpan(Filler(fs[j].end, NextStart(fs, j, endISO), fs[j].block.start == fs[j].end)))
      && (hideTimes ==>
            && |spans| == 1 + |fs|
            && forall j :: 0 <= j < |fs| ==> spans[1 + j] == BlockSpan(fs[j].block.start, fs[j].end))
  {
    var spans := Layout(startISO, endISO, chopStart, fs, hideTimes);
    assert spans[0] == FillerSpan(LeadingFiller(startISO, endISO, chopStart, fs));
    if hideTimes {
      HiddenLayout(startISO, endISO, chopStart, fs);
    } else {
      ShownLayout(startISO, endISO, chopStart, fs);
    }
  }

  lemma ShownLayout(startISO: int, endISO: int, chopStart: bool, fs: seq<Formatted>)
    ensures var spans := Layout(startISO, endISO, chopStart, fs, false);
      && |spans| == 1 + 2 * |fs|
      && forall j :: 0 <= j < |fs| ==>
           && spans[1 + 2 * j] == BlockSpan(fs[j].block.start, fs[j].end)
           && spans[2 + 2 * j] == FillerSpan(Filler(fs[j].end, NextStart(fs, j, endISO), fs[j].block.start == fs[j].end))
  {
    var spans := Layout(startISO, endISO, chopStart, fs, false);
    var body := BodySpans(fs, 0, endISO, false);
    assert spans == [spans[0]] + body;
    ShownBodyAt(fs, 0, endISO);
    forall j | 0 <= j < |fs|
      ensures spans[1 + 2 * j] == BlockSpan(fs[j].block.start, fs[j].end)
      ensures spans[2 + 2 * j] == FillerSpan(Filler(fs[j].end, NextStart(fs, j, endISO), fs[j].block.start == fs[j].end))
    {
      assert 2 * (j - 0) == 2 * j;
      AfterOne(spans[0], body, 2 * j);
      AfterOne(spans[0], body, 2 * j + 1);
    }
  }

  lemma HiddenLayout(startISO: int, endISO: int, chopStart: bool, fs: seq<Formatted>)
    ensures var spans := Layout(startISO, endISO, chopStart, fs, true);
      && |spans| == 1 + |fs|
      && forall j :: 0 <= j < |fs| ==> spans[1 + j] == BlockSpan(fs[j].block.start, fs[j].end)
  {
    var spans := Layout(startISO, endISO, chopStart, fs, true);
    var body := BodySpans(fs, 0, endISO, true);
    assert spans == [spans[0]] + body;
    HiddenBodyAt(fs, 0, endISO);
    forall j | 0 <= j < |fs|
      ensures spans[1 + j] == BlockSpan(fs[j].block.start, fs[j].end)
    {
      AfterOne(spans[0], body, j);
    }
  }

  lemma AfterOne(a: Span, body: seq<Span>, k: nat)
    requires k < |body|
    ensures ([a] + body)[k + 1] == body[k]
  {
  }

  /** Completeness of the drawing: when times are shown and the blocks lie in
      the window, the fillers and top-level blocks cover the window edge to
      edge, and an empty block list gives a single filler over the whole window. */
  lemma LayoutTilesWindow(blocks: seq<Block>, extend: bool, startISO: int, endISO: int, chopStart: bool)
    requires startISO <= endISO
    requires InsideWindow(blocks, startISO, endISO)
    ensures Tiles(Layout(startISO, endISO, chopStart, Group(blocks, extend, endISO), false), startISO, endISO)
    ensures blocks == [] ==>
      Layout(startISO, endISO, chopStart, Group(blocks, extend, endISO), false)
        == [FillerSpan(Filler(startISO, endISO, chopStart || startISO == endISO))]
  {
    var g := Group(blocks, extend, endISO);
    var spans := Layout(startISO, endISO, chopStart, g, false);
    if g != [] {
      GroupTopLevelInside(blocks, extend, startISO, endISO);
      TopLevelStartsAfterPreviousEnd(blocks, extend, endISO);
      ExtensionRule(blocks, extend, endISO);
      BodyTiles(g, 0, endISO, extend);
      assert spans == [spans[0]] + BodySpans(g, 0, endISO, false);
    }
  }
}
