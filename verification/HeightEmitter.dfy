/**
 * Choosing which block heights to fetch (pkg/btc/btcnode.go, orchestrateFetching).
 *
 * Every tick reports the node's tip, or nothing when the node cannot be asked; tips may fall.
 */
module HeightEmitter {
  import opened Basics
  import opened Intervals

  /** The heights lo, lo + 1, ..., hi - 1. */
  function Interval(lo: int, hi: int): (s: seq<int>)
    ensures |s| == Max(hi - lo, 0)
    ensures forall i :: 0 <= i < |s| ==> s[i] == lo + i
  {
    if hi <= lo then [] else seq(hi - lo, i => lo + i)
  }

  lemma {:induction false} OneMoreHeight(lo: int, hi: int)
    requires lo <= hi
    ensures Interval(lo, hi) + [hi] == Interval(lo, hi + 1)
  {
  }

  /** A positive end height caps what a tick may reach. */
  function Target(tip: int, endHeight: int): int {
    if endHeight > 0 then Min(tip, endHeight) else tip
  }

  /** The targets of the ticks are all behind the cursor, and it has gone no further than they said. */
  predicate CursorAt(first: int, cursor: int, endHeight: int, ticks: seq<Option<int>>) {
    && first <= cursor
    && (forall i :: 0 <= i < |ticks| && ticks[i].Some? ==> Target(ticks[i].value, endHeight) < cursor)
    && (cursor == first || exists i :: 0 <= i < |ticks| && ticks[i].Some? && Target(ticks[i].value, endHeight) == cursor - 1)
  }

  /** Where the cursor is after the ticks. */
  function CursorAfter(first: int, endHeight: int, ticks: seq<Option<int>>): int
    decreases |ticks|
  {
    if ticks == [] then first else
      var before := CursorAfter(first, endHeight, ticks[..|ticks| - 1]);
      var tick := ticks[|ticks| - 1];
      if tick.Some? then Max(before, Target(tick.value, endHeight) + 1) else before
  }

  lemma {:induction false} CursorStep(first: int, endHeight: int, ticks: seq<Option<int>>, t: nat)
    requires t < |ticks|
    ensures var before := CursorAfter(first, endHeight, ticks[..t]);
      CursorAfter(first, endHeight, ticks[..t + 1])
      == if ticks[t].Some? then Max(before, Target(ticks[t].value, endHeight) + 1) else before
  {
    assert ticks[..t + 1][..t] == ticks[..t];
  }

  lemma {:induction false} CursorMeaning(first: int, endHeight: int, ticks: seq<Option<int>>)
    ensures CursorAt(first, CursorAfter(first, endHeight, ticks), endHeight, ticks)
    decreases |ticks|
  {
    if ticks == [] {
    } else {
      var n := |ticks| - 1;
      CursorMeaning(first, endHeight, ticks[..n]);
      assert forall i :: 0 <= i < n ==> ticks[..n][i] == ticks[i];
      var before := CursorAfter(first, endHeight, ticks[..n]);
      if ticks[n].Some? && Target(ticks[n].value, endHeight) >= before {
        assert Target(ticks[n].value, endHeight) == CursorAfter(first, endHeight, ticks) - 1;
      } else if before != first {
        var i :| 0 <= i < n && ticks[..n][i].Some? && Target(ticks[..n][i].value, endHeight) == before - 1;
        assert ticks[i].Some? && Target(ticks[i].value, endHeight) == before - 1;
      }
    }
  }

  /** Height by height: what lies before the cursor is what is within the end height and has been seen behind some tip. */
  lemma {:induction false} SentExactly(first: int, cursor: int, endHeight: int, ticks: seq<Option<int>>)
    requires CursorAt(first, cursor, endHeight, ticks)
    ensures forall h :: h in Interval(first, cursor) <==>
      && first <= h && (endHeight > 0 ==> h <= endHeight)
      && exists i :: 0 <= i < |ticks| && ticks[i].Some? && h <= ticks[i].value
  {
    forall h
      ensures h in Interval(first, cursor) <==>
        && first <= h && (endHeight > 0 ==> h <= endHeight)
        && exists i :: 0 <= i < |ticks| && ticks[i].Some? && h <= ticks[i].value
    {
      assert first <= h < cursor ==> Interval(first, cursor)[h - first] == h;
      if h in Interval(first, cursor) {
        var i :| 0 <= i < |ticks| && ticks[i].Some? && Target(ticks[i].value, endHeight) == cursor - 1;
        assert h <= ticks[i].value;
      }
    }
  }

  /**
   * Exactly once, in order: over every sequence of tips the heights sent are the consecutive run from the first height
   * up to the cursor, which are the heights that are within a positive end height and not above every tip seen.
   */
  method OrchestrateFetching(startHeight: int, endHeight: int, lastIndexed: Option<int>, ticks: seq<Option<int>>)
    returns (sent: seq<int>, cursor: int)
    ensures var first := Max(startHeight, (if lastIndexed.Some? then lastIndexed.value else 0) + 1);
      && sent == Interval(first, cursor) && CursorAt(first, cursor, endHeight, ticks)
      && forall h :: h in sent <==>
           && first <= h && (endHeight > 0 ==> h <= endHeight)
           && exists i :: 0 <= i < |ticks| && ticks[i].Some? && h <= ticks[i].value
  {
    var last := if lastIndexed.Some? then lastIndexed.value else 0;
    cursor := startHeight;
    if cursor < last + 1 {
      cursor := last + 1;
    }
    ghost var first := Max(startHeight, (if lastIndexed.Some? then lastIndexed.value else 0) + 1);
    sent := [];
    for t := 0 to |ticks|
      invariant first <= cursor && sent == Interval(first, cursor) && cursor == CursorAfter(first, endHeight, ticks[..t])
    {
      CursorStep(first, endHeight, ticks, t);
      if ticks[t].None? {
        continue;
      }
      var end := ticks[t].value;
      if end > endHeight && endHeight > 0 {
        end := endHeight;
      }
      if cursor > end {
        continue;
      }
      var height := cursor;
      while height <= end
        invariant cursor <= height <= end + 1
        invariant sent == Interval(first, height)
      {
        OneMoreHeight(first, height);
        sent := sent + [height];
        height := height + 1;
      }
      cursor := end + 1;
    }
    assert ticks[..|ticks|] == ticks;
    CursorMeaning(first, endHeight, ticks);
    SentExactly(first, cursor, endHeight, ticks);
  }

  /** How often `h` occurs. */
  function Count(q: seq<int>, h: int): nat
    decreases |q|
  {
    if q == [] then 0 else Count(q[..|q| - 1], h) + if q[|q| - 1] == h then 1 else 0
  }

  /** No height is sent twice. */
  lemma {:induction false} IntervalDistinct(lo: int, hi: int, h: int)
    ensures Count(Interval(lo, hi), h) == if lo <= h < hi then 1 else 0
    decreases hi - lo
  {
    if lo >= hi {
    } else {
      IntervalDistinct(lo, hi - 1, h);
      assert Interval(lo, hi)[..hi - 1 - lo] == Interval(lo, hi - 1);
    }
  }

  // ---------------------------------------------------------------------------------------------
  // Chunks of heights

  /** int64 addition. */
  function Add64(a: int, b: int): (sum: int)
    ensures INT64_MIN <= a + b < TWO_63 ==> sum == a + b
  {
    AsInt64(AsUint64(a + b))
  }

  function ChunkSize(batchSize: int): (size: int)
    ensures size >= 1
  {
    if batchSize <= 0 then 64 else batchSize
  }

  /** The chunk the loop cuts at `start`. */
  function ChunkFrom(start: int, endHeight: int, size: int): Range {
    var end := Add64(start, size - 1);
    Range(start, if end > endHeight then endHeight else end)
  }

  /** A chunk holds its own start if and only if its end does not overflow. */
  lemma {:induction false} ChunkReach(start: int, endHeight: int, size: int)
    requires INT64_MIN <= start <= endHeight < TWO_63 && 1 <= size < TWO_63
    ensures start <= ChunkFrom(start, endHeight, size).hi <==> start + size - 1 < TWO_63
  {
    if start + size - 1 >= TWO_63 {
      assert AsUint64(start + size - 1) == start + size - 1;
    }
  }

  /** A step past a chunk moves forward if and only if it does not overflow; otherwise it lands at or below its start. */
  lemma {:induction false} StepReach(start: int, size: int)
    requires INT64_MIN <= start < TWO_63 && 1 <= size < TWO_63
    ensures Add64(start, size) <= start <==> start + size >= TWO_63
  {
    if start + size >= TWO_63 {
      assert AsUint64(start + size) == start + size;
    }
  }

  /** Where the loop is after its last chunk, if nothing overflows. */
  function LastStep(start: int, endHeight: int, size: int): (last: int)
    requires start <= endHeight && size >= 1
    ensures start + size <= last
    decreases endHeight - start
  {
    if start + size > endHeight then start + size else LastStep(start + size, endHeight, size)
  }

  /** That is the first multiple of the size past the end, counted from the start: if k whole steps fit, k + 1 steps on. */
  lemma {:induction false} LastStepFormula(start: int, endHeight: int, size: int, k: nat)
    requires size >= 1 && start + k * size <= endHeight < start + k * size + size
    ensures start <= endHeight && LastStep(start, endHeight, size) == start + k * size + size
    decreases k
  {
    if k == 0 {
    } else {
      assert k * size == (k - 1) * size + size;
      LastStepFormula(start + size, endHeight, size, k - 1);
    }
  }

  function Heights(r: Range): int {
    r.hi - r.lo + 1
  }

  predicate AllOf(chunks: seq<Range>, size: int) {
    forall c :: c in chunks ==> Heights(c) == size
  }

  lemma {:induction false} OneMoreChunk(chunks: seq<Range>, lo: int, c: Range, size: int)
    requires Tiles(chunks, lo, c.lo) && c.lo <= c.hi + 1 && AllOf(chunks, size)
    ensures var more := chunks + [c];
      && more != [] && more[|more| - 1] == c && Tiles(more, lo, c.hi + 1)
      && AllOf(more[..|more| - 1], size) && (Heights(c) == size ==> AllOf(more, size))
  {
    assert (chunks + [c])[..|chunks|] == chunks;
  }

  /** defineChunks partitions [startHeight, endHeight] when no step, the one past its last chunk included, overflows int64. */
  method DefineChunks(startHeight: int, endHeight: int, batchSize: int) returns (chunks: seq<Range>)
    requires INT64_MIN <= startHeight
    requires startHeight <= endHeight ==> LastStep(startHeight, endHeight, ChunkSize(batchSize)) < TWO_63
    ensures startHeight > endHeight ==> chunks == []
    ensures startHeight <= endHeight ==> Tiles(chunks, startHeight, endHeight + 1)
    ensures var size := if batchSize <= 0 then 64 else batchSize;
      chunks != [] ==> 1 <= Heights(chunks[|chunks| - 1]) <= size && AllOf(chunks[..|chunks| - 1], size)
  {
    var size := ChunkSize(batchSize);
    chunks := [];
    var start := startHeight;
    while start <= endHeight
      invariant startHeight <= start
      invariant start <= endHeight ==> LastStep(start, endHeight, size) == LastStep(startHeight, endHeight, size)
      invariant startHeight <= endHeight ==> Tiles(chunks, startHeight, Min(start, endHeight + 1))
      invariant startHeight > endHeight ==> chunks == []
      invariant start <= endHeight ==> AllOf(chunks, size)
      invariant chunks != [] ==> 1 <= Heights(chunks[|chunks| - 1]) <= size && AllOf(chunks[..|chunks| - 1], size)
      decreases endHeight - start
    {
      var end := Add64(start, size - 1);
      if end > endHeight {
        end := endHeight;
      }
      OneMoreChunk(chunks, startHeight, Range(start, end), size);
      chunks := chunks + [Range(start, end)];
      start := Add64(start, size);
    }
  }
}
