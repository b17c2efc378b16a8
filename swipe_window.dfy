/**
 The velocity estimate of the swipe recogniser (src/register-swipe-handler.js:
 1-7, 105-131). While a horizontal drag is in progress every touch move
 records a sample: the time since the previous recorded move and the
 horizontal distance covered since then. The samples are walked from the
 newest back, summing their times, until the sum reaches the 300 ms window;
 the sample that reaches it and every older one are left out, and the mean
 velocity over the samples kept decides whether the drag is a swipe.

 Times and distances are whole milliseconds and pixels. The velocity test
 `cumDistance / cumTime > 0.8` is written without division.
 */
module SwipeWindow {

  /** Below this vertical distance a touch may still become a drag; from this
      horizontal distance on it is one. */
  const MinDragDistance := 15
  /** Buffers longer than this are trimmed. */
  const StoreVelocities := 20
  /** The length of the velocity window, in milliseconds. */
  const VelocityWindow := 300

  /** One recorded move: milliseconds since the previous one and the pixels
      covered horizontally since then. */
  datatype DragPoint = DragPoint(timeDelta: int, xDelta: nat)

  /** The time covered by a run of samples. */
  function SumTime(s: seq<DragPoint>): int
  {
    if s == [] then 0 else s[0].timeDelta + SumTime(s[1..])
  }

  /** The distance covered by a run of samples. */
  function SumDist(s: seq<DragPoint>): (d: int)
    ensures d >= 0
  {
    if s == [] then 0 else s[0].xDelta + SumDist(s[1..])
  }

  /** `start` is where the window begins: every run of samples from an index
      at or after `start` to the newest spans less than the window, and when
      samples are left out, the run from the newest one left out does not. */
  ghost predicate IsWindowStart(pts: seq<DragPoint>, start: nat)
  {
    && start <= |pts|
    && (forall k :: start <= k < |pts| ==> SumTime(pts[k..]) < VelocityWindow)
    && (start > 0 ==> SumTime(pts[start - 1..]) >= VelocityWindow)
  }

  /** A run of samples is one sample followed by the rest. */
  lemma SumStep(pts: seq<DragPoint>, i: nat)
    requires i < |pts|
    ensures SumTime(pts[i..]) == pts[i].timeDelta + SumTime(pts[i + 1..])
    ensures SumDist(pts[i..]) == pts[i].xDelta + SumDist(pts[i + 1..])
  {
    assert pts[i..][1..] == pts[i + 1..];
  }

  /** The backward walk over the samples (src/register-swipe-handler.js:
      112-127): the time and distance of the window and the index of its
      first sample. */
  method MeasureWindow(pts: seq<DragPoint>) returns (cumTime: int, cumDist: int, start: nat)
    ensures IsWindowStart(pts, start)
    ensures cumTime == SumTime(pts[start..]) && cumDist == SumDist(pts[start..])
  {
    cumTime, cumDist := 0, 0;
    var i: int := |pts| - 1;
    while i >= 0
      invariant -1 <= i < |pts|
      invariant cumTime == SumTime(pts[i + 1..]) && cumDist == SumDist(pts[i + 1..])
      invariant forall k :: i < k < |pts| ==> SumTime(pts[k..]) < VelocityWindow
    {
      SumStep(pts, i);
      cumTime := cumTime + pts[i].timeDelta;
      if cumTime >= VelocityWindow {
        cumTime := cumTime - pts[i].timeDelta;
        return cumTime, cumDist, i + 1;
      }
      cumDist := cumDist + pts[i].xDelta;
      i := i - 1;
    }
    start := 0;
  }

  /** The window is determined by the samples: a buffer has one start. */
  lemma WindowStartUnique(pts: seq<DragPoint>, s1: nat, s2: nat)
    requires IsWindowStart(pts, s1) && IsWindowStart(pts, s2)
    ensures s1 == s2
  {
    if s1 < s2 {
      assert false;
    } else if s2 < s1 {
      assert false;
    }
  }

  /** The buffer once the walk stopped at the sample before `start`
      (src/register-swipe-handler.js:121-122): when more than
      `StoreVelocities` samples lie below that one, all but the last one of
      them are dropped. */
  function Trim(pts: seq<DragPoint>, start: nat): (r: seq<DragPoint>)
    requires start <= |pts|
    ensures start > 0 && start - 1 > StoreVelocities ==> |r| == |pts| - (start - 2)
    ensures !(start > 0 && start - 1 > StoreVelocities) ==> r == pts
    // only the oldest samples are dropped
    ensures |r| <= |pts| && forall k :: 0 <= k < |r| ==> r[k] == pts[|pts| - |r| + k]
  {
    if start > 0 && start - 1 > StoreVelocities then pts[start - 2..] else pts
  }

  /** Trimming keeps every sample of the window, and the two before it, as
      the newest samples of the buffer: the window measured again is the
      same. */
  lemma TrimKeepsWindow(pts: seq<DragPoint>, start: nat)
    requires IsWindowStart(pts, start)
    ensures var r := Trim(pts, start);
      && |r| >= |pts| - start
      && r[|r| - (|pts| - start)..] == pts[start..]
      && IsWindowStart(r, start - (|pts| - |r|))
  {
    var r := Trim(pts, start);
    if start > 0 && start - 1 > StoreVelocities {
      var d := start - 2;
      assert r == pts[d..];
      forall k | start - d <= k < |r|
        ensures SumTime(r[k..]) < VelocityWindow
      {
        assert r[k..] == pts[k + d..];
      }
      assert r[start - d - 1..] == pts[start - 1..];
    }
  }

  /** JavaScript's `cumDistance / cumTime > 0.8` for a distance that is never
      negative: a positive time compares the quotient; a zero time gives
      `Infinity` for a positive distance and `NaN` for none; a negative time
      gives a quotient that is not positive. */
  predicate IsSwipe(cumDist: nat, cumTime: int): (b: bool)
    ensures b ==> cumDist > 0
  {
    if cumTime > 0 then 5 * cumDist > 4 * cumTime
    else cumTime == 0 && cumDist > 0
  }

  /** The test agrees with the real-valued quotient whenever it is defined. */
  lemma IsSwipeExact(cumDist: nat, cumTime: int)
    requires cumTime != 0
    ensures IsSwipe(cumDist, cumTime) <==> (cumDist as real) / (cumTime as real) > 0.8
  {
    var d, t := cumDist as real, cumTime as real;
    var q := d / t;
    assert q * t == d;
    if cumTime > 0 {
      ScaleOrder(q, 0.8, t);
    } else {
      ScaleOrder(q, 0.0, -t);
      assert q * -t == -d;
    }
  }

  /** Scaling by a positive factor keeps the order. */
  lemma ScaleOrder(a: real, b: real, t: real)
    requires t > 0.0
    ensures a > b <==> a * t > b * t
  {
    assert a * t - b * t == (a - b) * t;
  }

  /** With no time in the window a swipe needs some distance (`Infinity`),
      and no distance never swipes (`NaN`, or a zero quotient). */
  lemma IsSwipeEdges(cumDist: nat, cumTime: int)
    ensures cumTime == 0 ==> (IsSwipe(cumDist, cumTime) <==> cumDist > 0)
    ensures cumDist == 0 ==> !IsSwipe(cumDist, cumTime)
  {
  }
}
