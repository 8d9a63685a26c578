/**
 * A model of `build_candidates`, the segment builder of the clip tool:
 * loudness peaks (timestamps in seconds) become clip windows of a fixed
 * length centred on each peak, shifted to fit inside the video, sorted by
 * start and merged left to right whenever a window starts no later than the
 * previous accumulated window's end plus the merge margin.
 *
 * Times are modelled as `real`; the double-precision rounding of the source
 * is not reproduced.
 */
module Segmenter {

  /** A candidate clip region `(start, end)`, in seconds. */
  datatype Window = Window(start: real, end: real)

  function Max(x: real, y: real): real { if x < y then y else x }

  /** `w` lies inside `m`. */
  predicate Within(w: Window, m: Window) {
    m.start <= w.start && w.end <= m.end
  }

  predicate AllInBounds(s: seq<Window>, videoDuration: real) {
    forall k :: 0 <= k < |s| ==> InBounds(s[k], videoDuration)
  }

  /** `w` lies inside some window of `outer`. */
  predicate InsideSome(w: Window, outer: seq<Window>) {
    exists k :: 0 <= k < |outer| && Within(w, outer[k])
  }

  /** Some window of `raw` starts at `t`. */
  predicate StartOfSome(t: real, raw: seq<Window>) {
    exists i :: 0 <= i < |raw| && raw[i].start == t
  }

  /** `m` starts where some window of `raw` starts and ends no earlier than it. */
  predicate ExtendsSome(m: Window, raw: seq<Window>) {
    exists i :: 0 <= i < |raw| && raw[i].start == m.start && raw[i].end <= m.end
  }

  /** Every window of `inner` lies inside some window of `outer`. */
  predicate Covers(outer: seq<Window>, inner: seq<Window>) {
    forall i :: 0 <= i < |inner| ==> InsideSome(inner[i], outer)
  }

  /** Every window of `merged` starts where some window of `raw` starts. */
  predicate OpenedBy(merged: seq<Window>, raw: seq<Window>) {
    forall k :: 0 <= k < |merged| ==> StartOfSome(merged[k].start, raw)
  }

  /**
   * Every window of `merged` starts where some window of `raw` starts and
   * ends no earlier than that window.
   */
  predicate Extends(merged: seq<Window>, raw: seq<Window>) {
    forall k :: 0 <= k < |merged| ==> ExtendsSome(merged[k], raw)
  }

  /** Every window is at least `length` long. */
  predicate AtLeast(s: seq<Window>, length: real) {
    forall k :: 0 <= k < |s| ==> s[k].end - s[k].start >= length
  }

  predicate InBounds(w: Window, videoDuration: real) {
    0.0 <= w.start <= w.end <= videoDuration
  }

  predicate SortedByStart(s: seq<Window>) {
    forall p, q :: 0 <= p < q < |s| ==> s[p].start <= s[q].start
  }

  /** Consecutive windows are further apart than the merge margin. */
  predicate Separated(s: seq<Window>, margin: real) {
    forall k :: 0 < k < |s| ==> s[k].start > s[k - 1].end + margin
  }

  /** Windows that share a start are the same window. */
  predicate TiesIdentical(s: seq<Window>) {
    forall p, q :: 0 <= p < |s| && 0 <= q < |s| && s[p].start == s[q].start ==> s[p] == s[q]
  }

  // ---------------------------------------------------------------------
  // 1) One window per peak, shifted (not shrunk) into [0, videoDuration]
  // ---------------------------------------------------------------------

  /**
   * Reference definition of the clamped window of a peak, case by case:
   * a video shorter than the clip gives the whole video; otherwise the
   * window keeps its length and is pinned to whichever edge it would cross,
   * and is centred on the peak when it crosses neither.
   */
  function Clamp(t: real, clipDuration: real, videoDuration: real): Window
    requires clipDuration > 0.0 && videoDuration >= 0.0
  {
    var half := clipDuration / 2.0;
    if videoDuration < clipDuration then Window(0.0, videoDuration)
    else if t < half then Window(0.0, clipDuration)
    else if t + half > videoDuration then Window(videoDuration - clipDuration, videoDuration)
    else Window(t - half, t + half)
  }

  /**
   * The clamped window lies within the video; it is exactly a clip long when
   * the video is at least that long and is the whole video otherwise; it
   * contains its peak when the peak is within the video; and it is centred
   * on the peak whenever the centred window already fits.
   */
  lemma ClampFitsVideo(t: real, clipDuration: real, videoDuration: real)
    requires clipDuration > 0.0 && videoDuration >= 0.0
    ensures InBounds(Clamp(t, clipDuration, videoDuration), videoDuration)
    ensures videoDuration >= clipDuration ==>
              Clamp(t, clipDuration, videoDuration).end - Clamp(t, clipDuration, videoDuration).start == clipDuration
    ensures videoDuration < clipDuration ==> Clamp(t, clipDuration, videoDuration) == Window(0.0, videoDuration)
    ensures 0.0 <= t <= videoDuration ==>
              Clamp(t, clipDuration, videoDuration).start <= t <= Clamp(t, clipDuration, videoDuration).end
    ensures 0.0 <= t - clipDuration / 2.0 && t + clipDuration / 2.0 <= videoDuration
            ==> Clamp(t, clipDuration, videoDuration) == Window(t - clipDuration / 2.0, t + clipDuration / 2.0)
  {
  }

  /** The source's step-by-step clamping of one peak: centre, then fix the left edge, then the right. */
  method ClampPeak(t: real, clipDuration: real, videoDuration: real) returns (w: Window)
    requires clipDuration > 0.0 && videoDuration >= 0.0
    ensures w == Clamp(t, clipDuration, videoDuration)
  {
    var half := clipDuration / 2.0;
    var start := t - half;
    var end := t + half;
    if start < 0.0 {
      start := 0.0;
      end := if clipDuration < videoDuration then clipDuration else videoDuration;
    }
    if end > videoDuration {
      end := videoDuration;
      start := Max(0.0, end - clipDuration);
    }
    w := Window(start, end);
  }

  /** The raw windows, one per peak, in peak order. */
  method RawWindows(peaks: seq<real>, clipDuration: real, videoDuration: real) returns (raw: seq<Window>)
    requires clipDuration > 0.0 && videoDuration >= 0.0
    ensures |raw| == |peaks|
    ensures forall i :: 0 <= i < |peaks| ==> raw[i] == Clamp(peaks[i], clipDuration, videoDuration)
  {
    raw := [];
    for i := 0 to |peaks|
      invariant |raw| == i
      invariant forall j :: 0 <= j < i ==> raw[j] == Clamp(peaks[j], clipDuration, videoDuration)
    {
      var w := ClampPeak(peaks[i], clipDuration, videoDuration);
      raw := raw + [w];
    }
  }

  /**
   * Two clamped windows with the same start are the same window, so the
   * order in which a sort leaves ties cannot be observed.
   */
  lemma ClampTiesIdentical(peaks: seq<real>, raw: seq<Window>, clipDuration: real, videoDuration: real)
    requires clipDuration > 0.0 && videoDuration >= 0.0
    requires |raw| == |peaks|
    requires forall i :: 0 <= i < |peaks| ==> raw[i] == Clamp(peaks[i], clipDuration, videoDuration)
    ensures TiesIdentical(raw)
  {
    forall p, q | 0 <= p < |raw| && 0 <= q < |raw| && raw[p].start == raw[q].start
      ensures raw[p] == raw[q]
    {
      assert raw[p] == Clamp(peaks[p], clipDuration, videoDuration);
      assert raw[q] == Clamp(peaks[q], clipDuration, videoDuration);
      ClampFitsVideo(peaks[p], clipDuration, videoDuration);
      ClampFitsVideo(peaks[q], clipDuration, videoDuration);
    }
  }

  // ---------------------------------------------------------------------
  // 2) Sort by start
  // ---------------------------------------------------------------------

  /** Exchanges `a[j - 1]` and `a[j]`. */
  method SwapAdjacent(a: array<Window>, j: int)
    requires 0 < j < a.Length
    modifies a
    ensures a[..] == old(a[..])[j - 1 := old(a[j])][j := old(a[j - 1])]
    ensures multiset(a[..]) == old(multiset(a[..]))
  {
    a[j - 1], a[j] := a[j], a[j - 1];
  }

  /**
   * In-place insertion sort by start. An element moves left only past
   * windows with a strictly larger start, so windows with equal starts keep
   * their order, as Python's stable `list.sort` does.
   */
  method SortByStart(a: array<Window>)
    modifies a
    ensures SortedByStart(a[..])
    ensures multiset(a[..]) == old(multiset(a[..]))
  {
    var i := 0;
    while i < a.Length
      invariant 0 <= i <= a.Length
      invariant forall p, q :: 0 <= p < q < i ==> a[p].start <= a[q].start
      invariant multiset(a[..]) == old(multiset(a[..]))
    {
      var j := i;
      while j > 0 && a[j - 1].start > a[j].start
        invariant 0 <= j <= i
        invariant forall p, q :: 0 <= p < q <= i && p != j && q != j ==> a[p].start <= a[q].start
        invariant forall q :: j < q <= i ==> a[j].start < a[q].start
        invariant multiset(a[..]) == old(multiset(a[..]))
      {
        SwapAdjacent(a, j);
        j := j - 1;
      }
      i := i + 1;
    }
  }

  /** Sorted permutations of each other begin with windows of the same start. */
  lemma SortedHeadsShareStart(a: seq<Window>, b: seq<Window>)
    requires SortedByStart(a) && SortedByStart(b)
    requires multiset(a) == multiset(b) && a != []
    ensures b != [] && a[0].start == b[0].start && b[0] in a
  {
    assert |b| == |multiset(b)| == |multiset(a)| == |a|;
    assert a[0] in multiset(b);
    var j :| 0 <= j < |b| && b[j] == a[0];
    assert b[0] in multiset(a);
    var i :| 0 <= i < |a| && a[i] == b[0];
    assert a[0].start <= a[i].start;
    assert b[0].start <= b[j].start;
  }

  lemma TailKeepsOrder(a: seq<Window>)
    requires a != []
    ensures SortedByStart(a) ==> SortedByStart(a[1..])
    ensures TiesIdentical(a) ==> TiesIdentical(a[1..])
  {
    assert forall p :: 0 <= p < |a| - 1 ==> a[1..][p] == a[p + 1];
  }

  lemma MultisetTail(a: seq<Window>, b: seq<Window>)
    requires a != [] && b != [] && a[0] == b[0]
    requires multiset(a) == multiset(b)
    ensures multiset(a[1..]) == multiset(b[1..])
  {
    assert a == [a[0]] + a[1..] && b == [b[0]] + b[1..];
    assert multiset(a[1..]) == multiset(a) - multiset{a[0]};
    assert multiset(b[1..]) == multiset(b) - multiset{b[0]};
  }

  /**
   * A sorted arrangement of windows whose ties are identical is unique:
   * any two sorted permutations of it are equal.
   */
  lemma {:induction false} SortedPermutationUnique(a: seq<Window>, b: seq<Window>)
    requires SortedByStart(a) && SortedByStart(b)
    requires multiset(a) == multiset(b)
    requires TiesIdentical(a)
    ensures a == b
  {
    if a == [] {
      assert |b| == |multiset(b)| == 0;
    } else {
      SortedHeadsShareStart(a, b);
      assert a[0] == b[0];
      TailKeepsOrder(a);
      TailKeepsOrder(b);
      MultisetTail(a, b);
      SortedPermutationUnique(a[1..], b[1..]);
      assert a == [a[0]] + a[1..] == [b[0]] + b[1..] == b;
    }
  }

  // ---------------------------------------------------------------------
  // 3) Merge sweep
  // ---------------------------------------------------------------------

  /**
   * One step of the sweep: start the accumulator, absorb `w` into its last
   * window (raising only that window's end), or append `w` as a new window.
   */
  function Absorb(acc: seq<Window>, w: Window, margin: real): (r: seq<Window>)
    ensures |r| == |acc| || |r| == |acc| + 1
    ensures |r| > 0 && r[..|r| - 1] <= acc
  {
    if acc == [] then [w]
    else
      var last := acc[|acc| - 1];
      if w.start <= last.end + margin then acc[..|acc| - 1] + [Window(last.start, Max(last.end, w.end))]
      else acc + [w]
  }

  /** The accumulator after sweeping all of `ws` left to right. */
  function Sweep(ws: seq<Window>, margin: real): (r: seq<Window>)
    ensures |r| <= |ws|
    ensures r == [] <==> ws == []
  {
    if ws == [] then [] else Absorb(Sweep(ws[..|ws| - 1], margin), ws[|ws| - 1], margin)
  }

  /** Sweeping one more window absorbs it into the accumulator. */
  lemma SweepStep(ws: seq<Window>, i: int, margin: real)
    requires 0 <= i < |ws|
    ensures Sweep(ws[..i + 1], margin) == Absorb(Sweep(ws[..i], margin), ws[i], margin)
  {
    assert ws[..i + 1][..i] == ws[..i];
  }

  /** The merge loop, appending to `merged` or overwriting its last element. */
  method MergeSweep(ws: seq<Window>, margin: real) returns (merged: seq<Window>)
    ensures merged == Sweep(ws, margin)
  {
    merged := [];
    for i := 0 to |ws|
      invariant merged == Sweep(ws[..i], margin)
    {
      ghost var next := Absorb(merged, ws[i], margin);
      SweepStep(ws, i, margin);
      var w := ws[i];
      if merged == [] {
        merged := merged + [w];
      } else {
        var prev := merged[|merged| - 1];
        if w.start <= prev.end + margin {
          var widened := Window(prev.start, Max(prev.end, w.end));
          assert merged[|merged| - 1 := widened] == merged[..|merged| - 1] + [widened];
          merged := merged[|merged| - 1 := widened];
        } else {
          merged := merged + [w];
        }
      }
      assert merged == next;
    }
    assert ws[..|ws|] == ws;
  }

  /** Largest end among the run `ws[lo..hi]`. */
  function RunEnd(ws: seq<Window>, lo: int, hi: int): real
    requires 0 <= lo < hi <= |ws|
    decreases hi
  {
    if hi == lo + 1 then ws[lo].end else Max(RunEnd(ws, lo, hi - 1), ws[hi - 1].end)
  }

  /** `RunEnd` is the end of some window of the run, and no window of the run ends later. */
  lemma {:induction false} RunEndIsMax(ws: seq<Window>, lo: int, hi: int) returns (top: int)
    requires 0 <= lo < hi <= |ws|
    ensures forall i :: lo <= i < hi ==> ws[i].end <= RunEnd(ws, lo, hi)
    ensures lo <= top < hi && ws[top].end == RunEnd(ws, lo, hi)
    decreases hi
  {
    if hi == lo + 1 {
      top := lo;
    } else {
      top := RunEndIsMax(ws, lo, hi - 1);
      if ws[top].end < ws[hi - 1].end {
        top := hi - 1;
      }
    }
  }

  lemma {:induction false} RunEndOfPrefix(ws: seq<Window>, n: int, lo: int, hi: int)
    requires 0 <= lo < hi <= n <= |ws|
    ensures RunEnd(ws[..n], lo, hi) == RunEnd(ws, lo, hi)
    decreases hi
  {
    if hi > lo + 1 {
      RunEndOfPrefix(ws, n, lo, hi - 1);
    }
  }

  /**
   * Index in the input of the window that opened each output window: the
   * positions where the sweep appended rather than absorbed.
   */
  ghost function Cuts(ws: seq<Window>, margin: real): seq<int>
  {
    if ws == [] then []
    else
      var prefix := ws[..|ws| - 1];
      var acc := Sweep(prefix, margin);
      if acc != [] && ws[|ws| - 1].start <= acc[|acc| - 1].end + margin then Cuts(prefix, margin)
      else Cuts(prefix, margin) + [|ws| - 1]
  }

  /** End (exclusive) in the input of output window `k`'s run. */
  function GroupEnd(cuts: seq<int>, k: int, n: int): int
    requires 0 <= k < |cuts|
  {
    if k + 1 < |cuts| then cuts[k + 1] else n
  }

  /** `cuts` splits the first `n` input positions into consecutive non-empty runs, starting at 0. */
  ghost predicate IsPartition(n: int, cuts: seq<int>) {
    && (n > 0 <==> cuts != [])
    && (cuts != [] ==> cuts[0] == 0)
    && (forall k :: 0 <= k < |cuts| ==> 0 <= cuts[k] < n)
    && (forall p, q :: 0 <= p < q < |cuts| ==> cuts[p] < cuts[q])
  }

  /**
   * Output window `k` starts where its run's first window starts and ends at
   * the largest end in its run.
   */
  ghost predicate MergesRuns(ws: seq<Window>, merged: seq<Window>, cuts: seq<int>)
    requires IsPartition(|ws|, cuts)
  {
    && |merged| == |cuts|
    && forall k :: 0 <= k < |cuts| ==>
         merged[k] == Window(ws[cuts[k]].start, RunEnd(ws, cuts[k], GroupEnd(cuts, k, |ws|)))
  }

  /** Absorbing the last input window extends the last run by one position. */
  lemma AbsorbExtendsRun(ws: seq<Window>, acc: seq<Window>, cuts: seq<int>)
    requires |ws| >= 2 && IsPartition(|ws| - 1, cuts)
    requires MergesRuns(ws[..|ws| - 1], acc, cuts)
    ensures IsPartition(|ws|, cuts)
    ensures MergesRuns(ws, acc[..|acc| - 1] + [Window(acc[|acc| - 1].start, Max(acc[|acc| - 1].end, ws[|ws| - 1].end))], cuts)
  {
    var n := |ws|;
    var prefix := ws[..n - 1];
    var m := |acc|;
    var r := acc[..m - 1] + [Window(acc[m - 1].start, Max(acc[m - 1].end, ws[n - 1].end))];
    forall k | 0 <= k < m
      ensures r[k] == Window(ws[cuts[k]].start, RunEnd(ws, cuts[k], GroupEnd(cuts, k, n)))
    {
      assert prefix[cuts[k]] == ws[cuts[k]];
      if k < m - 1 {
        RunEndOfPrefix(ws, n - 1, cuts[k], cuts[k + 1]);
      } else {
        RunEndOfPrefix(ws, n - 1, cuts[k], n - 1);
      }
    }
  }

  lemma PartitionAppend(n: int, cuts: seq<int>)
    requires n >= 1 && IsPartition(n - 1, cuts)
    ensures IsPartition(n, cuts + [n - 1])
  {
    var cs := cuts + [n - 1];
    assert forall k :: 0 <= k < |cuts| ==> cs[k] == cuts[k];
  }

  /** Appending the last input window opens a new run at its position. */
  lemma AppendOpensRun(ws: seq<Window>, acc: seq<Window>, cuts: seq<int>)
    requires |ws| >= 1 && IsPartition(|ws| - 1, cuts)
    requires MergesRuns(ws[..|ws| - 1], acc, cuts)
    ensures IsPartition(|ws|, cuts + [|ws| - 1])
    ensures MergesRuns(ws, acc + [ws[|ws| - 1]], cuts + [|ws| - 1])
  {
    var n := |ws|;
    var prefix := ws[..n - 1];
    var cs := cuts + [n - 1];
    var r := acc + [ws[n - 1]];
    PartitionAppend(n, cuts);
    forall k | 0 <= k < |cs|
      ensures r[k] == Window(ws[cs[k]].start, RunEnd(ws, cs[k], GroupEnd(cs, k, n)))
    {
      if k < |cuts| {
        assert prefix[cuts[k]] == ws[cuts[k]];
        assert GroupEnd(cs, k, n) == GroupEnd(cuts, k, n - 1);
        RunEndOfPrefix(ws, n - 1, cuts[k], GroupEnd(cuts, k, n - 1));
      }
    }
  }

  /**
   * Each output window of the sweep merges one run of consecutive input
   * windows: its start is the run's first start and its end the largest end
   * absorbed into it.
   */
  lemma {:induction false} SweepMergesRuns(ws: seq<Window>, margin: real)
    ensures IsPartition(|ws|, Cuts(ws, margin))
    ensures MergesRuns(ws, Sweep(ws, margin), Cuts(ws, margin))
  {
    if ws != [] {
      var prefix := ws[..|ws| - 1];
      var acc := Sweep(prefix, margin);
      SweepMergesRuns(prefix, margin);
      if acc != [] && ws[|ws| - 1].start <= acc[|acc| - 1].end + margin {
        SweepAbsorbStep(ws, margin);
      } else {
        SweepAppendStep(ws, margin);
      }
    }
  }

  /** A window that reaches the last run widens it: the runs stay the same. */
  lemma SweepAbsorbStep(ws: seq<Window>, margin: real)
    requires ws != []
    requires IsPartition(|ws| - 1, Cuts(ws[..|ws| - 1], margin))
    requires MergesRuns(ws[..|ws| - 1], Sweep(ws[..|ws| - 1], margin), Cuts(ws[..|ws| - 1], margin))
    requires var acc := Sweep(ws[..|ws| - 1], margin);
      acc != [] && ws[|ws| - 1].start <= acc[|acc| - 1].end + margin
    ensures IsPartition(|ws|, Cuts(ws, margin))
    ensures MergesRuns(ws, Sweep(ws, margin), Cuts(ws, margin))
  {
    var n := |ws|;
    var prefix := ws[..n - 1];
    var acc := Sweep(prefix, margin);
    var cuts := Cuts(prefix, margin);
    var last := acc[|acc| - 1];
    assert Cuts(ws, margin) == cuts;
    assert Sweep(ws, margin) == acc[..|acc| - 1] + [Window(last.start, Max(last.end, ws[n - 1].end))];
    AbsorbExtendsRun(ws, acc, cuts);
  }

  /** A window beyond the last run's reach opens a run of its own. */
  lemma SweepAppendStep(ws: seq<Window>, margin: real)
    requires ws != []
    requires IsPartition(|ws| - 1, Cuts(ws[..|ws| - 1], margin))
    requires MergesRuns(ws[..|ws| - 1], Sweep(ws[..|ws| - 1], margin), Cuts(ws[..|ws| - 1], margin))
    requires var acc := Sweep(ws[..|ws| - 1], margin);
      !(acc != [] && ws[|ws| - 1].start <= acc[|acc| - 1].end + margin)
    ensures IsPartition(|ws|, Cuts(ws, margin))
    ensures MergesRuns(ws, Sweep(ws, margin), Cuts(ws, margin))
  {
    var n := |ws|;
    var prefix := ws[..n - 1];
    var acc := Sweep(prefix, margin);
    var cuts := Cuts(prefix, margin);
    assert Cuts(ws, margin) == cuts + [n - 1];
    assert Sweep(ws, margin) == acc + [ws[n - 1]];
    AppendOpensRun(ws, acc, cuts);
  }

  /** The sweep leaves consecutive output windows further apart than the margin, for any sign of the margin. */
  lemma {:induction false} SweepSeparated(ws: seq<Window>, margin: real)
    ensures Separated(Sweep(ws, margin), margin)
  {
    if ws != [] {
      SweepSeparated(ws[..|ws| - 1], margin);
    }
  }

  /** A separated sequence is a fixed point of the sweep. */
  lemma {:induction false} SweepFixesSeparated(ws: seq<Window>, margin: real)
    requires Separated(ws, margin)
    ensures Sweep(ws, margin) == ws
  {
    if ws != [] {
      var n := |ws|;
      var prefix := ws[..n - 1];
      assert Separated(prefix, margin) by {
        assert forall k :: 0 <= k < n - 1 ==> prefix[k] == ws[k];
      }
      SweepFixesSeparated(prefix, margin);
      assert Sweep(ws, margin) == Absorb(prefix, ws[n - 1], margin);
      assert prefix + [ws[n - 1]] == ws;
    }
  }

  /** The sweep leaves a sequence unchanged exactly when it is already separated. */
  lemma SweepFixedIffSeparated(ws: seq<Window>, margin: real)
    ensures Sweep(ws, margin) == ws <==> Separated(ws, margin)
  {
    SweepSeparated(ws, margin);
    if Separated(ws, margin) {
      SweepFixesSeparated(ws, margin);
    }
  }

  /** Sweeping the sweep's own output with the same margin returns it unchanged. */
  lemma SweepIdempotent(ws: seq<Window>, margin: real)
    ensures Sweep(Sweep(ws, margin), margin) == Sweep(ws, margin)
  {
    SweepSeparated(ws, margin);
    SweepFixesSeparated(Sweep(ws, margin), margin);
  }

  /** The output window whose run holds input position `i`. */
  lemma {:induction false} RunOf(cuts: seq<int>, n: int, i: int) returns (k: int)
    requires cuts != [] && cuts[0] == 0
    requires forall j :: 0 <= j < |cuts| ==> 0 <= cuts[j] < n
    requires forall p, q :: 0 <= p < q < |cuts| ==> cuts[p] < cuts[q]
    requires 0 <= i < n
    ensures 0 <= k < |cuts| && cuts[k] <= i < GroupEnd(cuts, k, n)
  {
    var last := |cuts| - 1;
    if cuts[last] <= i {
      k := last;
    } else {
      k := RunOf(cuts[..last], cuts[last], i);
    }
  }

  /**
   * Every output window starts where some input window starts and ends no
   * earlier than that window: merging only raises the end.
   */
  lemma SweepOpenedByInput(ws: seq<Window>, margin: real)
    ensures Extends(Sweep(ws, margin), ws)
  {
    var r := Sweep(ws, margin);
    var cuts := Cuts(ws, margin);
    SweepMergesRuns(ws, margin);
    forall k | 0 <= k < |r|
      ensures ExtendsSome(r[k], ws)
    {
      var _ := RunEndIsMax(ws, cuts[k], GroupEnd(cuts, k, |ws|));
      assert r[k].start == ws[cuts[k]].start && r[k].end >= ws[cuts[k]].end;
    }
  }

  /** Over an input sorted by start, the output is sorted by start. */
  lemma SweepKeepsSorted(ws: seq<Window>, margin: real)
    requires SortedByStart(ws)
    ensures SortedByStart(Sweep(ws, margin))
  {
    var r := Sweep(ws, margin);
    var cuts := Cuts(ws, margin);
    SweepMergesRuns(ws, margin);
    forall p, q | 0 <= p < q < |r|
      ensures r[p].start <= r[q].start
    {
      assert r[p].start == ws[cuts[p]].start && r[q].start == ws[cuts[q]].start;
    }
  }

  /**
   * Input window `i` was absorbed into output window `k`, which was opened
   * by input window `j` no later than `i`.
   */
  lemma SweepAbsorbedInto(ws: seq<Window>, margin: real, i: int) returns (k: int, j: int)
    requires 0 <= i < |ws|
    ensures 0 <= k < |Sweep(ws, margin)| && 0 <= j <= i
    ensures Sweep(ws, margin)[k].start == ws[j].start && ws[i].end <= Sweep(ws, margin)[k].end
  {
    var r := Sweep(ws, margin);
    var cuts := Cuts(ws, margin);
    SweepMergesRuns(ws, margin);
    k := RunOf(cuts, |ws|, i);
    j := cuts[k];
    var hi := GroupEnd(cuts, k, |ws|);
    var _ := RunEndIsMax(ws, j, hi);
    assert r[k] == Window(ws[j].start, RunEnd(ws, j, hi));
  }

  /** Over an input sorted by start, every input window lies inside some output window. */
  lemma SweepCoversInput(ws: seq<Window>, margin: real)
    requires SortedByStart(ws)
    ensures Covers(Sweep(ws, margin), ws)
  {
    var r := Sweep(ws, margin);
    forall i | 0 <= i < |ws|
      ensures InsideSome(ws[i], r)
    {
      var k, j := SweepAbsorbedInto(ws, margin, i);
      assert ws[j].start <= ws[i].start;
      assert Within(ws[i], r[k]);
    }
  }

  /** When every input window is within the video, so is every output window. */
  lemma SweepInBounds(ws: seq<Window>, margin: real, videoDuration: real)
    requires AllInBounds(ws, videoDuration)
    ensures AllInBounds(Sweep(ws, margin), videoDuration)
  {
    var r := Sweep(ws, margin);
    var cuts := Cuts(ws, margin);
    SweepMergesRuns(ws, margin);
    forall k | 0 <= k < |r|
      ensures InBounds(r[k], videoDuration)
    {
      var top := RunEndIsMax(ws, cuts[k], GroupEnd(cuts, k, |ws|));
      assert InBounds(ws[top], videoDuration);
      assert InBounds(ws[cuts[k]], videoDuration);
    }
  }

  // ---------------------------------------------------------------------
  // The whole builder
  // ---------------------------------------------------------------------

  /** Permutations of each other hold the same windows. */
  lemma PermutationSameWindows(a: seq<Window>, b: seq<Window>)
    requires multiset(a) == multiset(b)
    ensures forall i :: 0 <= i < |a| ==> a[i] in b
    ensures forall j :: 0 <= j < |b| ==> b[j] in a
  {
    forall i | 0 <= i < |a|
      ensures a[i] in b
    {
      assert a[i] in multiset(b);
    }
    forall j | 0 <= j < |b|
      ensures b[j] in a
    {
      assert b[j] in multiset(a);
    }
  }

  /** The clamped windows lie within the video, and are a clip long when the video is. */
  lemma RawWindowsFit(peaks: seq<real>, clipDuration: real, videoDuration: real, raw: seq<Window>)
    requires clipDuration > 0.0 && videoDuration >= 0.0
    requires |raw| == |peaks|
    requires forall i :: 0 <= i < |peaks| ==> raw[i] == Clamp(peaks[i], clipDuration, videoDuration)
    ensures AllInBounds(raw, videoDuration)
    ensures videoDuration >= clipDuration ==> AtLeast(raw, clipDuration)
  {
    forall i | 0 <= i < |raw|
      ensures InBounds(raw[i], videoDuration)
      ensures videoDuration >= clipDuration ==> raw[i].end - raw[i].start >= clipDuration
    {
      ClampFitsVideo(peaks[i], clipDuration, videoDuration);
    }
  }

  /** Bounds and lengths carry over to another arrangement of the same windows. */
  lemma FitAcrossPermutation(sorted: seq<Window>, raw: seq<Window>, videoDuration: real, length: real)
    requires forall j :: 0 <= j < |sorted| ==> sorted[j] in raw
    ensures AllInBounds(raw, videoDuration) ==> AllInBounds(sorted, videoDuration)
    ensures AtLeast(raw, length) ==> AtLeast(sorted, length)
  {
    forall j | 0 <= j < |sorted|
      ensures exists i :: 0 <= i < |raw| && raw[i] == sorted[j]
    {
      assert sorted[j] in raw;
    }
  }

  /**
   * The shape of the merge of any sorted arrangement of the raw windows:
   * empty exactly when there are none, at most one output per raw window,
   * sorted, separated by more than the margin, and unchanged by a second
   * sweep.
   */
  lemma CandidatesShape(raw: seq<Window>, sorted: seq<Window>, merged: seq<Window>, margin: real)
    requires SortedByStart(sorted) && multiset(sorted) == multiset(raw)
    requires merged == Sweep(sorted, margin)
    ensures raw == [] <==> merged == []
    ensures |merged| <= |raw|
    ensures SortedByStart(merged)
    ensures Separated(merged, margin)
    ensures Sweep(merged, margin) == merged
  {
    assert |sorted| == |multiset(sorted)| == |multiset(raw)| == |raw|;
    SweepKeepsSorted(sorted, margin);
    SweepSeparated(sorted, margin);
    SweepIdempotent(sorted, margin);
  }

  /**
   * Every raw window lies inside some candidate, and every candidate starts
   * where some raw window starts.
   */
  lemma CandidatesCoverRaw(raw: seq<Window>, sorted: seq<Window>, merged: seq<Window>, margin: real)
    requires SortedByStart(sorted) && multiset(sorted) == multiset(raw)
    requires merged == Sweep(sorted, margin)
    ensures Covers(merged, raw)
    ensures OpenedBy(merged, raw)
  {
    PermutationSameWindows(sorted, raw);
    assert Covers(merged, raw) by {
      SweepCoversInput(sorted, margin);
      CoverAcrossPermutation(merged, sorted, raw);
    }
    assert OpenedBy(merged, raw) by {
      SweepOpenedByInput(sorted, margin);
      OpenAcrossPermutation(merged, sorted, raw);
    }
  }

  /**
   * Candidates stay within the video, and are at least as long as the raw
   * windows are.
   */
  lemma CandidatesFit(raw: seq<Window>, sorted: seq<Window>, merged: seq<Window>,
                      length: real, videoDuration: real, margin: real)
    requires AllInBounds(raw, videoDuration)
    requires AtLeast(raw, length)
    requires multiset(sorted) == multiset(raw)
    requires merged == Sweep(sorted, margin)
    ensures AllInBounds(merged, videoDuration)
    ensures AtLeast(merged, length)
  {
    PermutationSameWindows(sorted, raw);
    FitAcrossPermutation(sorted, raw, videoDuration, length);
    SweepInBounds(sorted, margin, videoDuration);
    SweepOpenedByInput(sorted, margin);
    ExtendsKeepsLength(merged, sorted, length);
  }

  /** Coverage carries over to another arrangement of the same windows. */
  lemma CoverAcrossPermutation(merged: seq<Window>, sorted: seq<Window>, raw: seq<Window>)
    requires Covers(merged, sorted)
    requires forall i :: 0 <= i < |raw| ==> raw[i] in sorted
    ensures Covers(merged, raw)
  {
    forall i | 0 <= i < |raw|
      ensures InsideSome(raw[i], merged)
    {
      var j :| 0 <= j < |sorted| && sorted[j] == raw[i];
      var k :| 0 <= k < |merged| && Within(sorted[j], merged[k]);
      assert Within(raw[i], merged[k]);
    }
  }

  /** Openings carry over to another arrangement of the same windows. */
  lemma OpenAcrossPermutation(merged: seq<Window>, sorted: seq<Window>, raw: seq<Window>)
    requires Extends(merged, sorted)
    requires forall j :: 0 <= j < |sorted| ==> sorted[j] in raw
    ensures OpenedBy(merged, raw)
  {
    forall k | 0 <= k < |merged|
      ensures StartOfSome(merged[k].start, raw)
    {
      var j :| 0 <= j < |sorted| && sorted[j].start == merged[k].start && sorted[j].end <= merged[k].end;
      var i :| 0 <= i < |raw| && raw[i] == sorted[j];
      assert merged[k].start == raw[i].start;
    }
  }

  /** Windows that extend windows at least `length` long are at least `length` long. */
  lemma ExtendsKeepsLength(merged: seq<Window>, sorted: seq<Window>, length: real)
    requires Extends(merged, sorted) && AtLeast(sorted, length)
    ensures AtLeast(merged, length)
  {
    forall k | 0 <= k < |merged|
      ensures merged[k].end - merged[k].start >= length
    {
      var j :| 0 <= j < |sorted| && sorted[j].start == merged[k].start && sorted[j].end <= merged[k].end;
    }
  }

  /**
   * `build_candidates`: clamp one window per peak, sort the windows by start
   * in place, then merge them left to right. `raw` and `sorted` expose the
   * intermediate lists.
   */
  method BuildCandidates(peaks: seq<real>, clipDuration: real, videoDuration: real, margin: real)
    returns (merged: seq<Window>, ghost raw: seq<Window>, ghost sorted: seq<Window>)
    requires clipDuration > 0.0 && videoDuration >= 0.0
    ensures |raw| == |peaks|
    ensures forall i :: 0 <= i < |peaks| ==> raw[i] == Clamp(peaks[i], clipDuration, videoDuration)
    ensures SortedByStart(sorted) && multiset(sorted) == multiset(raw)
    ensures merged == Sweep(sorted, margin)
    ensures peaks == [] <==> merged == []
    ensures |merged| <= |peaks|
    ensures AllInBounds(merged, videoDuration)
    ensures SortedByStart(merged)
    ensures Separated(merged, margin)
    ensures Covers(merged, raw)
    ensures OpenedBy(merged, raw)
    ensures videoDuration >= clipDuration ==> AtLeast(merged, clipDuration)
    ensures Sweep(merged, margin) == merged
  {
    var rawWindows := RawWindows(peaks, clipDuration, videoDuration);
    raw := rawWindows;
    var a := new Window[|rawWindows|](i requires 0 <= i < |rawWindows| => rawWindows[i]);
    assert a[..] == raw;
    SortByStart(a);
    sorted := a[..];
    merged := MergeSweep(a[..], margin);
    RawWindowsFit(peaks, clipDuration, videoDuration, raw);
    CandidatesShape(raw, sorted, merged, margin);
    CandidatesCoverRaw(raw, sorted, merged, margin);
    if videoDuration >= clipDuration {
      CandidatesFit(raw, sorted, merged, clipDuration, videoDuration, margin);
    } else {
      CandidatesFit(raw, sorted, merged, 0.0, videoDuration, margin);
    }
  }

  // ---------------------------------------------------------------------
  // Worked scenarios
  // ---------------------------------------------------------------------

  /**
   * Peaks 5, 6 and 50 with a 10 s clip in a 60 s video give the windows
   * (0,10), (1,11) and (45,55); whatever sorted arrangement the sort leaves,
   * merging with a 1 s margin gives (0,11) and (45,55).
   */
  lemma NearbyPeaksMerge(sorted: seq<Window>)
    requires SortedByStart(sorted)
    requires multiset(sorted) == multiset([Clamp(5.0, 10.0, 60.0), Clamp(6.0, 10.0, 60.0), Clamp(50.0, 10.0, 60.0)])
    ensures Sweep(sorted, 1.0) == [Window(0.0, 11.0), Window(45.0, 55.0)]
  {
    var raw := [Window(0.0, 10.0), Window(1.0, 11.0), Window(45.0, 55.0)];
    assert [Clamp(5.0, 10.0, 60.0), Clamp(6.0, 10.0, 60.0), Clamp(50.0, 10.0, 60.0)] == raw;
    assert TiesIdentical(raw);
    SortedPermutationUnique(raw, sorted);
    assert raw[..1] == [Window(0.0, 10.0)] && raw[..2][..1] == raw[..1];
    assert Sweep(raw[..1], 1.0) == [Window(0.0, 10.0)];
    assert Sweep(raw[..2], 1.0) == [Window(0.0, 11.0)];
  }

  /** A single peak gives exactly its clamped window, whatever the margin. */
  lemma SinglePeakKept(t: real, clipDuration: real, videoDuration: real, margin: real, sorted: seq<Window>)
    requires clipDuration > 0.0 && videoDuration >= 0.0
    requires multiset(sorted) == multiset([Clamp(t, clipDuration, videoDuration)])
    ensures Sweep(sorted, margin) == [Clamp(t, clipDuration, videoDuration)]
  {
    var w := Clamp(t, clipDuration, videoDuration);
    assert |sorted| == |multiset(sorted)| == 1;
    assert sorted[0] in multiset([w]);
    assert sorted == [w];
  }

  /**
   * With a 10 s clip: peak 2 in a 60 s video shifts right to (0,10), peak 58
   * shifts left to (50,60), and any peak in an 8 s video gives (0,8).
   */
  lemma ClampScenarios()
    ensures Clamp(2.0, 10.0, 60.0) == Window(0.0, 10.0)
    ensures Clamp(58.0, 10.0, 60.0) == Window(50.0, 60.0)
    ensures forall t :: Clamp(t, 10.0, 8.0) == Window(0.0, 8.0)
  {
  }
}
