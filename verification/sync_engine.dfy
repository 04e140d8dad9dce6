/**
 * The sync indexer: which lyric line is active at a playback position, and
 * which lines around it the overlay shows.
 */
module SyncEngine {
  import opened Wrappers

  /** Line start times in milliseconds, non-decreasing (as the LRC parser emits them). */
  predicate Sorted(a: seq<int>) {
    forall i, j :: 0 <= i < j < |a| ==> a[i] <= a[j]
  }

  // ---------------------------------------------------------------------------
  // bisect_right
  // ---------------------------------------------------------------------------

  /**
   * Python's `bisect.bisect_right(a, x, lo, hi)`: halve `[lo, hi)` at
   * `mid = (lo + hi) // 2`, keep the left half when `x < a[mid]` and the
   * right half past `mid` otherwise.
   */
  function BisectRight(a: seq<int>, x: int, lo: nat, hi: nat): (r: nat)
    requires lo <= hi <= |a|
    ensures lo <= r <= hi
    decreases hi - lo
  {
    if lo == hi then lo
    else
      var mid := (lo + hi) / 2;
      if x < a[mid] then BisectRight(a, x, lo, mid) else BisectRight(a, x, mid + 1, hi)
  }

  /**
   * On a sorted list the insertion point splits `[lo, hi)` into the entries
   * at most `x` and the entries greater than `x`, duplicates of `x` included
   * on the left.
   */
  lemma {:induction false} BisectRightPartition(a: seq<int>, x: int, lo: nat, hi: nat)
    requires lo <= hi <= |a| && Sorted(a)
    ensures forall j :: lo <= j < BisectRight(a, x, lo, hi) ==> a[j] <= x
    ensures forall j :: BisectRight(a, x, lo, hi) <= j < hi ==> x < a[j]
    decreases hi - lo
  {
    if lo < hi {
      var mid := (lo + hi) / 2;
      if x < a[mid] {
        BisectRightPartition(a, x, lo, mid);
      } else {
        BisectRightPartition(a, x, mid + 1, hi);
      }
    }
  }

  // ---------------------------------------------------------------------------
  // current_line_index
  // ---------------------------------------------------------------------------

  /**
   * The index of the line playing at `progress`: one less than the insertion
   * point of `progress`, and -1 when there is no position or no line.
   */
  function CurrentLineIndex(times: seq<int>, progress: Option<int>): (r: int)
    ensures -1 <= r < |times|
    ensures progress.None? || times == [] ==> r == -1
  {
    if progress.None? || times == [] then -1
    else BisectRight(times, progress.value, 0, |times|) - 1
  }

  /**
   * On sorted times the result is the last line that has started: every line
   * up to it starts at or before `p`, every later line after `p`.
   */
  lemma CurrentLineIndexSplits(times: seq<int>, p: int)
    requires Sorted(times)
    ensures forall j :: 0 <= j <= CurrentLineIndex(times, Some(p)) ==> times[j] <= p
    ensures forall j :: CurrentLineIndex(times, Some(p)) < j < |times| ==> p < times[j]
  {
    if times != [] {
      BisectRightPartition(times, p, 0, |times|);
    }
  }

  /** The number of lines that start at or before `p`. */
  function CountStarted(times: seq<int>, p: int): (n: nat)
    ensures n <= |times|
  {
    if times == [] then 0
    else CountStarted(times[..|times| - 1], p) + (if times[|times| - 1] <= p then 1 else 0)
  }

  /** A split point of a sorted list is the count of the entries before it. */
  lemma {:induction false} SplitIsCount(times: seq<int>, p: int, n: nat)
    requires n <= |times|
    requires forall j :: 0 <= j < n ==> times[j] <= p
    requires forall j :: n <= j < |times| ==> p < times[j]
    ensures CountStarted(times, p) == n
    decreases |times|
  {
    if times != [] {
      var init := times[..|times| - 1];
      if n == |times| {
        SplitIsCount(init, p, n - 1);
      } else {
        SplitIsCount(init, p, n);
      }
    }
  }

  /**
   * An independent reading of the index on sorted times: the number of lines
   * already started, minus one.
   */
  lemma CurrentLineIndexCounts(times: seq<int>, p: int)
    requires Sorted(times)
    ensures CurrentLineIndex(times, Some(p)) == CountStarted(times, p) - 1
  {
    CurrentLineIndexSplits(times, p);
    SplitIsCount(times, p, CurrentLineIndex(times, Some(p)) + 1);
  }

  /** Before the first line's time, no line is active. */
  lemma BeforeFirstLine(times: seq<int>, p: int)
    requires Sorted(times) && times != []
    ensures CurrentLineIndex(times, Some(p)) == -1 <==> p < times[0]
  {
    CurrentLineIndexSplits(times, p);
  }

  /** At or after the last line's time, the last line stays active. */
  lemma AfterLastLine(times: seq<int>, p: int)
    requires Sorted(times) && times != []
    ensures CurrentLineIndex(times, Some(p)) == |times| - 1 <==> times[|times| - 1] <= p
  {
    CurrentLineIndexSplits(times, p);
  }

  /** As playback moves forward the active line never moves back. */
  lemma CurrentLineIndexMonotone(times: seq<int>, p: int, q: int)
    requires Sorted(times) && p <= q
    ensures CurrentLineIndex(times, Some(p)) <= CurrentLineIndex(times, Some(q))
  {
    CurrentLineIndexSplits(times, p);
    CurrentLineIndexSplits(times, q);
    var i := CurrentLineIndex(times, Some(p));
    if 0 <= i {
      assert times[i] <= q;
    }
  }

  /** Line `i` is the active one exactly when it has started and the next one has not. */
  lemma CurrentLineIndexIs(times: seq<int>, p: int, i: int)
    requires Sorted(times) && 0 <= i < |times|
    ensures CurrentLineIndex(times, Some(p)) == i <==>
      times[i] <= p && (i + 1 == |times| || p < times[i + 1])
  {
    CurrentLineIndexSplits(times, p);
    if times[i] <= p && (i + 1 == |times| || p < times[i + 1]) {
      if i + 1 < |times| {
        assert p < times[i + 1];
      }
    }
  }

  /** Three lines at 1 s, 5 s and 9 s, followed from before the first to far past the last. */
  lemma CurrentLineIndexExample()
    ensures CurrentLineIndex([1000, 5000, 9000], Some(0)) == -1
    ensures CurrentLineIndex([1000, 5000, 9000], Some(1000)) == 0
    ensures CurrentLineIndex([1000, 5000, 9000], Some(4999)) == 0
    ensures CurrentLineIndex([1000, 5000, 9000], Some(5000)) == 1
    ensures CurrentLineIndex([1000, 5000, 9000], Some(999999)) == 2
    ensures CurrentLineIndex([1000, 5000, 9000], None) == -1
  {
    var times := [1000, 5000, 9000];
    BeforeFirstLine(times, 0);
    CurrentLineIndexIs(times, 1000, 0);
    CurrentLineIndexIs(times, 4999, 0);
    CurrentLineIndexIs(times, 5000, 1);
    AfterLastLine(times, 999999);
  }

  // ---------------------------------------------------------------------------
  // window
  // ---------------------------------------------------------------------------

  const DefaultBefore: int := 2
  const DefaultAfter: int := 6

  /** Where a Python slice bound `x` lands in a list of length `len`: negative counts from the end, then clamped. */
  function SliceBound(len: nat, x: int): (b: nat)
    ensures b <= len
  {
    if x < 0 then (if len + x < 0 then 0 else len + x)
    else if x < len then x
    else len
  }

  /** Python's `s[i:j]`: the elements between the two adjusted bounds, none when they cross. */
  function PySlice<T>(s: seq<T>, i: int, j: int): (r: seq<T>)
    ensures 0 <= i <= j <= |s| ==> r == s[i..j]
    ensures 0 <= j <= i ==> r == []
    ensures forall k :: 0 <= k < |r| ==> SliceBound(|s|, i) + k < |s| && r[k] == s[SliceBound(|s|, i) + k]
  {
    var a, b := SliceBound(|s|, i), SliceBound(|s|, j);
    if a < b then s[a..b] else []
  }

  /** A slice is as long as the distance between its adjusted bounds, and empty when they cross. */
  lemma PySliceLength<T>(s: seq<T>, i: int, j: int)
    ensures |PySlice(s, i, j)| == if SliceBound(|s|, i) < SliceBound(|s|, j) then SliceBound(|s|, j) - SliceBound(|s|, i) else 0
  {
  }

  /** Negative bounds count from the end: `s[-n:]` is the last `n` elements, `s[:-n]` all but them. */
  lemma PySliceNegative<T>(s: seq<T>, n: int)
    requires 0 < n <= |s|
    ensures PySlice(s, -n, |s|) == s[|s| - n..]
    ensures PySlice(s, 0, -n) == s[..|s| - n]
  {
  }

  function Max(a: int, b: int): int { if a < b then b else a }
  function Min(a: int, b: int): int { if a < b then a else b }

  /** The lines the overlay shows around `idx`: up to `before` lines ahead of it and `after` past it. */
  function Window<T>(lines: seq<T>, idx: int, before: int, after: int): (r: seq<T>)
    ensures |r| <= |lines|
  {
    if lines == [] then []
    else PySlice(lines, Max(0, idx - before), Min(|lines|, idx + after + 1))
  }

  /**
   * With non-negative margins and an index of at least -1, the window is the
   * contiguous run from `max(0, idx - before)` to `min(len, idx + after + 1)`,
   * empty when those cross, and never longer than `before + after + 1`.
   */
  lemma WindowIsClampedRun<T>(lines: seq<T>, idx: int, before: int, after: int)
    requires 0 <= before && 0 <= after && -1 <= idx
    ensures var a, b := Max(0, idx - before), Min(|lines|, idx + after + 1);
      && |Window(lines, idx, before, after)| == (if a < b then b - a else 0)
      && (forall k :: 0 <= k < |Window(lines, idx, before, after)| ==>
            Window(lines, idx, before, after)[k] == lines[a + k])
    ensures |Window(lines, idx, before, after)| <= before + after + 1
  {
    if lines != [] {
      PySliceLength(lines, Max(0, idx - before), Min(|lines|, idx + after + 1));
    }
  }

  /** With no line active yet, the window is the first `after` lines, or all of them when fewer. */
  lemma WindowBeforeStart<T>(lines: seq<T>, before: int, after: int)
    requires 0 <= before && 0 <= after
    ensures Window(lines, -1, before, after) == lines[..Min(|lines|, after)]
  {
  }

  /** The active line is in its window, `min(idx, before)` places from the top. */
  lemma WindowShowsActive<T>(lines: seq<T>, idx: int, before: int, after: int)
    requires 0 <= idx < |lines| && 0 <= before && 0 <= after
    ensures Min(idx, before) < |Window(lines, idx, before, after)|
    ensures Window(lines, idx, before, after)[Min(idx, before)] == lines[idx]
  {
    WindowIsClampedRun(lines, idx, before, after);
  }

  /** Three lines with the last one active and the default margins: all three are shown. */
  lemma WindowExample()
    ensures Window([10, 20, 30], 2, DefaultBefore, DefaultAfter) == [10, 20, 30]
    ensures Window([10, 20, 30], -1, DefaultBefore, DefaultAfter) == [10, 20, 30]
    ensures Window([10, 20, 30, 40, 50, 60, 70, 80, 90, 100], 5, DefaultBefore, DefaultAfter) == [40, 50, 60, 70, 80, 90, 100]
    ensures Window<int>([], 0, DefaultBefore, DefaultAfter) == []
  {
    var ten := [10, 20, 30, 40, 50, 60, 70, 80, 90, 100];
    assert ten[3..10] == [40, 50, 60, 70, 80, 90, 100];
  }
}
