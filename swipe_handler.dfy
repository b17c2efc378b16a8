/**
 The touch gesture recogniser attached to the list container
 (src/register-swipe-handler.js:9-167). A touch that starts inside a list
 item and moves sideways drags that item (and, moving left, the items above
 it that are still on screen); a fast enough horizontal movement is a swipe,
 reported with the indexes of the dragged items among the container's
 children.

 The browser is outside the model: the element touched and its ancestors,
 the previous siblings of the dragged item with their offsets, the page
 scroll offset, the container's children and the clock are parameters of
 the handlers. The optional `onDragStart`, `onDragStop` and the `onSwipe`
 callbacks become the events a handler returns, in the order they are
 called.
 */
module Swipe {
  import opened Common
  import opened SwipeWindow

  /** A DOM element as the recogniser sees it: its tag name and the horizontal
      translation of its inline `transform` style (`None` for the empty style,
      `Some(x)` for `translateX(xpx)`). */
  class Element {
    const tag: string
    var transform: Option<int>

    constructor(tag: string)
      ensures this.tag == tag && transform == None
    {
      this.tag := tag;
      transform := None;
    }
  }

  /** A previous sibling of the dragged item and its `offsetTop`. */
  datatype Sibling = Sibling(node: Element, offsetTop: int)

  /** The callbacks, in the order the recogniser calls them. */
  datatype Event = DragStart | DragStop | Swiped(indexes: seq<int>)

  function Abs(n: int): nat
  {
    if n < 0 then -n else n
  }

  function Last(s: seq<Element>): Element
    requires s != []
  {
    s[|s| - 1]
  }

  function Members(s: seq<Element>): set<Element>
  {
    set e | e in s
  }

  function Nodes(s: seq<Sibling>): seq<Element>
  {
    seq(|s|, i requires 0 <= i < |s| => s[i].node)
  }

  /** The page's vertical scroll offset: the document element's, or the
      body's when that one is zero. */
  function PageScrollTop(documentScrollTop: int, bodyScrollTop: int): (r: int)
    ensures documentScrollTop != 0 ==> r == documentScrollTop
    ensures documentScrollTop == 0 ==> r == bodyScrollTop
  {
    if documentScrollTop == 0 then bodyScrollTop else documentScrollTop
  }

  /** The sample a move records: the time since the last recorded move and
      the horizontal distance from where it was. */
  function NewSample(lastMoveX: int, lastMoveTime: int, x: int, now: int): (r: DragPoint)
    ensures lastMoveTime + r.timeDelta == now
    ensures r.xDelta == lastMoveX - x || r.xDelta == x - lastMoveX
  {
    DragPoint(now - lastMoveTime, Abs(lastMoveX - x))
  }

  predicate IsSwiped(events: seq<Event>)
  {
    exists i :: 0 <= i < |events| && events[i].Swiped?
  }

  // ---------------------------------------------------------------------
  // Finding the list item under a touch.

  /** An element at which the ancestor walk gives up. */
  predicate Stops(e: Element)
  {
    e.tag == "UL" || e.tag == "BODY"
  }

  /** `path[j]` is the list item grabbed by a touch on `path[0]`, whose
      ancestors follow it in `path`: it is an `LI`, and every element below
      it on the way up is neither an `LI`, nor a `UL`, nor the `BODY`. */
  ghost predicate Grabs(path: seq<Element>, j: nat)
  {
    && j < |path|
    && path[j].tag == "LI"
    && forall k :: 0 <= k < j ==> path[k].tag != "LI" && !Stops(path[k])
  }

  /** A touch grabs at most one item. */
  lemma GrabsUnique(path: seq<Element>, i: nat, j: nat)
    requires Grabs(path, i) && Grabs(path, j)
    ensures i == j
  {
    if i < j {
      assert false;
    } else if j < i {
      assert false;
    }
  }

  /** The walk up from the touched element (src/register-swipe-handler.js:
      25-32): the index of the item grabbed, or none when the walk reaches a
      list, the body or the top of the tree first. */
  method FindItem(path: seq<Element>) returns (item: Option<nat>)
    requires path != []
    ensures item.Some? ==> Grabs(path, item.value)
    ensures item.None? ==> forall j: nat :: !Grabs(path, j)
  {
    var j := 0;
    while path[j].tag != "LI"
      invariant 0 <= j < |path|
      invariant forall k :: 0 <= k < j ==> path[k].tag != "LI" && !Stops(path[k])
      decreases |path| - j
    {
      if Stops(path[j]) {
        return None;
      }
      j := j + 1;
      if j == |path| {
        return None;
      }
    }
    return Some(j);
  }

  // ---------------------------------------------------------------------
  // The siblings a leftward drag takes along.

  /** The first `n` previous siblings, nearest first, are those at or below
      one pixel above the top of the page: the sibling after them, if any,
      is further up. */
  predicate VisibleRun(prev: seq<Sibling>, scrollTop: int, n: nat)
  {
    && n <= |prev|
    && (forall k :: 0 <= k < n ==> prev[k].offsetTop >= scrollTop - 1)
    && (n < |prev| ==> prev[n].offsetTop < scrollTop - 1)
  }

  /** The run is determined by the siblings and the scroll offset. */
  lemma VisibleRunUnique(prev: seq<Sibling>, scrollTop: int, m: nat, n: nat)
    requires VisibleRun(prev, scrollTop, m) && VisibleRun(prev, scrollTop, n)
    ensures m == n
  {
    if m < n {
      assert false;
    } else if n < m {
      assert false;
    }
  }

  /** The walk over the previous siblings (src/register-swipe-handler.js:
      81-96): how many of them join the drag. */
  method CountVisible(prev: seq<Sibling>, scrollTop: int) returns (n: nat)
    ensures VisibleRun(prev, scrollTop, n)
  {
    n := 0;
    while n < |prev|
      invariant n <= |prev|
      invariant forall k :: 0 <= k < n ==> prev[k].offsetTop >= scrollTop - 1
    {
      if prev[n].offsetTop < scrollTop - 1 {
        return;
      }
      n := n + 1;
    }
  }

  // ---------------------------------------------------------------------
  // The indexes reported with a swipe.

  /** JavaScript's `Array.prototype.indexOf` on elements: the first index of
      `x` in `xs`, or -1. */
  function IndexOf(xs: seq<Element>, x: Element): (r: int)
    ensures -1 <= r < |xs|
    ensures r == -1 <==> x !in xs
    ensures r >= 0 ==> xs[r] == x && x !in xs[..r]
  {
    if xs == [] then -1
    else if xs[0] == x then 0
    else
      var r := IndexOf(xs[1..], x);
      assert xs[1..][..r + 1] == xs[1..r + 2] by {
        if r >= 0 {
          assert xs[..r + 1][1..] == xs[1..][..r];
        }
      }
      if r == -1 then -1 else r + 1
  }

  /** `elementIndexesFromNodes` (src/register-swipe-handler.js:164-167): for
      every node, in order, its index among the container's children, or -1
      when it is not one of them. */
  function ElementIndexes(children: seq<Element>, nodes: seq<Element>): (r: seq<int>)
    ensures |r| == |nodes|
    ensures forall i :: 0 <= i < |nodes| ==> (r[i] == -1 <==> nodes[i] !in children)
    ensures forall i :: 0 <= i < |nodes| && r[i] != -1 ==>
              0 <= r[i] < |children| && children[r[i]] == nodes[i] && nodes[i] !in children[..r[i]]
  {
    seq(|nodes|, i requires 0 <= i < |nodes| => IndexOf(children, nodes[i]))
  }

  // ---------------------------------------------------------------------
  // The recogniser's state and its three touch handlers.

  /** The variables the handlers share. `lastMoveX` is `None` for its
      initial `Infinity`, `lastMoveTime` `None` for its initial `-Infinity`;
      `startX` and `startY` are read only once a touch start has set them. */
  class Handler {
    var dragTargets: seq<Element>
    var startX: int
    var startY: int
    var lastMoveX: Option<int>
    var lastMoveTime: Option<int>
    var isDragging: bool
    var dragBlocked: bool
    var dragPoints: seq<DragPoint>

    /** A drag has a start position, and dragged items a time of the last
        recorded move: the moves never compute with the infinite initial
        values. */
    predicate Valid()
      reads this`isDragging, this`lastMoveX, this`dragTargets, this`lastMoveTime
    {
      && (isDragging ==> lastMoveX.Some?)
      && (dragTargets != [] ==> lastMoveTime.Some?)
    }

    /** The state when the listeners are registered
        (src/register-swipe-handler.js:10-11, 20-21, 42-44). */
    constructor()
      ensures Valid()
      ensures dragTargets == [] && dragPoints == [] && !isDragging && !dragBlocked
      ensures lastMoveX == None && lastMoveTime == None
    {
      dragTargets, startX, startY := [], 0, 0;
      lastMoveX, lastMoveTime := None, None;
      isDragging, dragBlocked, dragPoints := false, false, [];
    }

    /** `clearDragTargets` (src/register-swipe-handler.js:13-18): every
        dragged item loses its translation and none is dragged any more. */
    method ClearDragTargets()
      modifies this`dragTargets, Members(dragTargets)`transform
      ensures dragTargets == []
      ensures forall e :: e in old(dragTargets) ==> e.transform == None
    {
      var targets := dragTargets;
      var i := 0;
      while i < |targets|
        invariant 0 <= i <= |targets|
        invariant forall k :: 0 <= k < i ==> targets[k].transform == None
      {
        targets[i].transform := None;
        i := i + 1;
      }
      dragTargets := [];
    }

    /** Every dragged item is translated by `xDelta`
        (src/register-swipe-handler.js:148-150). */
    method TranslateTargets(xDelta: int)
      modifies Members(dragTargets)`transform
      ensures forall e :: e in dragTargets ==> e.transform == Some(xDelta)
    {
      var targets := dragTargets;
      var i := 0;
      while i < |targets|
        invariant 0 <= i <= |targets|
        invariant forall k :: 0 <= k < i ==> targets[k].transform == Some(xDelta)
      {
        targets[i].transform := Some(xDelta);
        i := i + 1;
      }
    }

    /** The `touchstart` listener (src/register-swipe-handler.js:23-39): the
        items dragged before lose their translation; a touch inside a list
        item makes that item the only one dragged and records where and when
        the touch started; any other touch leaves nothing to drag. */
    method TouchStart(path: seq<Element>, x: int, y: int, now: int)
      requires Valid() && path != []
      modifies this`dragTargets, this`startX, this`startY, this`lastMoveTime
      modifies Members(dragTargets)`transform
      ensures Valid()
      ensures forall e :: e in old(dragTargets) ==> e.transform == None
      ensures (forall j: nat :: !Grabs(path, j)) ==>
                dragTargets == [] && startX == old(startX) && startY == old(startY)
                && lastMoveTime == old(lastMoveTime)
      ensures forall j: nat :: Grabs(path, j) ==>
                dragTargets == [path[j]] && startX == x && startY == y && lastMoveTime == Some(now)
    {
      ClearDragTargets();
      var item := FindItem(path);
      if item.Some? {
        forall j: nat | Grabs(path, j)
          ensures j == item.value
        {
          GrabsUnique(path, j, item.value);
        }
        Grab(path[item.value], x, y, now);
      }
    }

    method Grab(target: Element, x: int, y: int, now: int)
      modifies this`dragTargets, this`startX, this`startY, this`lastMoveTime
      ensures dragTargets == [target] && startX == x && startY == y && lastMoveTime == Some(now)
    {
      dragTargets, startX, startY, lastMoveTime := [target], x, y, Some(now);
    }

    /** The `touchmove` listener (src/register-swipe-handler.js:48-151).
        Nothing happens while no item is dragged or the gesture is blocked.
        Otherwise a touch not yet dragging is blocked by a vertical move of
        15 pixels or more, becomes a drag on a horizontal move of 15 pixels
        or more, and else waits; a drag then moves as `Adjust` and `Advance` say. A swipe
        blocks the gesture, so that no further move reports anything until
        the touch ends. */
    method TouchMove(x: int, y: int, now: int, prev: seq<Sibling>, documentScrollTop: int,
                     bodyScrollTop: int, children: seq<Element>)
      returns (events: seq<Event>)
      requires Valid()
      modifies this`dragTargets, this`isDragging, this`dragBlocked, this`dragPoints
      modifies this`lastMoveX, this`lastMoveTime
      modifies Members(dragTargets)`transform, Members(Nodes(prev))`transform
      ensures Valid()
      ensures old(dragTargets) == [] || old(dragBlocked) ==>
                events == [] && unchanged(this) && unchanged(Members(old(dragTargets)))
      ensures old(dragTargets) != [] && !old(dragBlocked) && !old(isDragging)
              && Abs(y - startY) >= MinDragDistance ==>
                events == [] && dragBlocked && dragTargets == old(dragTargets)
      ensures IsSwiped(events) ==> dragBlocked && !isDragging && dragTargets == []
      ensures events == [] || events == [DragStart] || IsSwiped(events)
      ensures events != [] && events[0] == DragStart ==> !old(isDragging)
    {
      if dragTargets == [] || dragBlocked {
        return [];
      }
      events := [];
      if !isDragging {
        var started := StartCheck(x, y);
        if !started {
          return;
        }
        events := [DragStart];
      }
      var xDelta := x - startX;
      var _ := Adjust(xDelta, prev, PageScrollTop(documentScrollTop, bodyScrollTop));
      var rest, _ := Advance(x, now, xDelta, children);
      events := events + rest;
      assert IsSwiped(rest) ==> IsSwiped(events) by {
        if IsSwiped(rest) {
          assert events[|events| - 1] == rest[1];
        }
      }
    }

    /** The test before a drag starts (src/register-swipe-handler.js:53-71):
        the vertical distance from the start is tested first and blocks the
        gesture; then the horizontal one starts the drag from the start
        position, with no samples recorded. */
    method StartCheck(x: int, y: int) returns (started: bool)
      requires !isDragging
      modifies this`dragBlocked, this`lastMoveX, this`dragPoints, this`isDragging
      ensures started <==> Abs(y - startY) < MinDragDistance && Abs(x - startX) >= MinDragDistance
      ensures dragBlocked == (old(dragBlocked) || Abs(y - startY) >= MinDragDistance)
      ensures started ==> isDragging && lastMoveX == Some(startX) && dragPoints == []
      ensures !started ==> !isDragging && lastMoveX == old(lastMoveX) && dragPoints == old(dragPoints)
    {
      if Abs(y - startY) >= MinDragDistance {
        dragBlocked := true;
        return false;
      }
      if Abs(x - startX) >= MinDragDistance {
        lastMoveX, dragPoints, isDragging := Some(startX), [], true;
        return true;
      }
      return false;
    }

    /** The dragged items follow the direction of the move
        (src/register-swipe-handler.js:73-103): moving left with one item
        dragged takes along the previous siblings that are still on screen;
        moving right with several items dragged lets the last one go. */
    method Adjust(xDelta: int, prev: seq<Sibling>, scrollTop: int) returns (n: nat)
      requires dragTargets != []
      modifies this`dragTargets, Last(dragTargets)`transform
      ensures dragTargets != []
      ensures forall e :: e in dragTargets ==> e in old(dragTargets) || e in Nodes(prev)
      ensures xDelta < 0 && |old(dragTargets)| == 1 ==>
                VisibleRun(prev, scrollTop, n) && dragTargets == old(dragTargets) + Nodes(prev[..n])
                && unchanged(old(dragTargets)[0])
      ensures xDelta >= 0 && |old(dragTargets)| > 1 ==>
                dragTargets == old(dragTargets)[..|old(dragTargets)| - 1]
                && old(dragTargets)[|old(dragTargets)| - 1].transform == None
      ensures (xDelta < 0 && |old(dragTargets)| != 1) || (xDelta >= 0 && |old(dragTargets)| <= 1) ==>
                dragTargets == old(dragTargets) && unchanged(old(dragTargets)[|old(dragTargets)| - 1])
    {
      n := 0;
      if xDelta < 0 && |dragTargets| == 1 {
        n := CountVisible(prev, scrollTop);
        Extend(prev[..n]);
        assert forall i :: 0 <= i < n ==> Nodes(prev[..n])[i] == Nodes(prev)[i];
      } else if xDelta >= 0 && |dragTargets| > 1 {
        DropLast();
      }
    }

    /** A move while dragging, once the dragged items are adjusted
        (src/register-swipe-handler.js:105-150): the move is recorded as a
        sample and the window of samples measured. A swipe then ends the drag
        without resetting the translations and reports the dragged items'
        indexes among the container's children; otherwise the move is
        remembered and every dragged item follows the touch. */
    method Advance(x: int, now: int, xDelta: int, children: seq<Element>)
      returns (events: seq<Event>, start: nat)
      requires isDragging && lastMoveX.Some? && lastMoveTime.Some? && dragTargets != []
      modifies this`dragTargets, this`isDragging, this`dragBlocked, this`dragPoints
      modifies this`lastMoveX, this`lastMoveTime, Members(dragTargets)`transform
      ensures Valid()
      ensures var pts := old(dragPoints) + [NewSample(old(lastMoveX).value, old(lastMoveTime).value, x, now)];
        && IsWindowStart(pts, start)
        && dragPoints == Trim(pts, start)
        && (IsSwipe(SumDist(pts[start..]), SumTime(pts[start..])) <==> IsSwiped(events))
      ensures IsSwiped(events) ==>
                && events == [DragStop, Swiped(ElementIndexes(children, old(dragTargets)))]
                && dragBlocked && !isDragging && dragTargets == []
                && lastMoveX == old(lastMoveX) && lastMoveTime == old(lastMoveTime)
                && unchanged(Members(old(dragTargets)))
      ensures !IsSwiped(events) ==>
                && events == [] && isDragging && dragBlocked == old(dragBlocked)
                && dragTargets == old(dragTargets)
                && lastMoveX == Some(x) && lastMoveTime == Some(now)
                && forall e :: e in dragTargets ==> e.transform == Some(xDelta)
    {
      var cumTime, cumDist;
      cumTime, cumDist, start := Sample(x, now);
      if IsSwipe(cumDist, cumTime) {
        events := FinishSwipe(children);
        assert events[1].Swiped?;
      } else {
        events := [];
        Follow(x, now, xDelta);
      }
    }

    /** Moving left with one item dragged: the siblings taken along are
        pushed after it (src/register-swipe-handler.js:95). */
    method Extend(siblings: seq<Sibling>)
      modifies this`dragTargets
      ensures dragTargets == old(dragTargets) + Nodes(siblings)
    {
      dragTargets := dragTargets + Nodes(siblings);
    }

    /** Moving right with several items dragged: the last one pushed stops
        being dragged and loses its translation
        (src/register-swipe-handler.js:99-103). */
    method DropLast()
      requires |dragTargets| > 1
      modifies this`dragTargets, Last(dragTargets)`transform
      ensures dragTargets == old(dragTargets)[..|old(dragTargets)| - 1]
      ensures old(dragTargets)[|old(dragTargets)| - 1].transform == None
    {
      var last := dragTargets[|dragTargets| - 1];
      dragTargets := dragTargets[..|dragTargets| - 1];
      last.transform := None;
    }

    /** The move is recorded and the window measured
        (src/register-swipe-handler.js:105-127): the sample buffer is the
        old one with the new sample, trimmed where the window begins. */
    method Sample(x: int, now: int) returns (cumTime: int, cumDist: nat, start: nat)
      requires lastMoveX.Some? && lastMoveTime.Some?
      modifies this`dragPoints
      ensures var pts := old(dragPoints) + [NewSample(lastMoveX.value, lastMoveTime.value, x, now)];
        && IsWindowStart(pts, start)
        && cumTime == SumTime(pts[start..]) && cumDist == SumDist(pts[start..])
        && dragPoints == Trim(pts, start)
    {
      var pts := dragPoints + [NewSample(lastMoveX.value, lastMoveTime.value, x, now)];
      cumTime, cumDist, start := MeasureWindow(pts);
      dragPoints := Trim(pts, start);
    }

    /** A swipe (src/register-swipe-handler.js:131-143): the gesture is
        blocked, the drag stops, the dragged items' indexes are reported and
        the items are let go with their translations kept. */
    method FinishSwipe(children: seq<Element>) returns (events: seq<Event>)
      modifies this`dragBlocked, this`isDragging, this`dragTargets
      ensures dragBlocked && !isDragging && dragTargets == []
      ensures events == [DragStop, Swiped(ElementIndexes(children, old(dragTargets)))]
    {
      events := [DragStop, Swiped(ElementIndexes(children, dragTargets))];
      dragBlocked, isDragging, dragTargets := true, false, [];
    }

    /** No swipe (src/register-swipe-handler.js:145-150): the move is
        remembered and the dragged items follow the touch. */
    method Follow(x: int, now: int, xDelta: int)
      modifies this`lastMoveX, this`lastMoveTime, Members(dragTargets)`transform
      ensures lastMoveX == Some(x) && lastMoveTime == Some(now)
      ensures forall e :: e in dragTargets ==> e.transform == Some(xDelta)
    {
      lastMoveX, lastMoveTime := Some(x), Some(now);
      TranslateTargets(xDelta);
    }

    /** The `touchend` listener (src/register-swipe-handler.js:153-161): the
        gesture is unblocked; a drag in progress stops and its items lose
        their translation. */
    method TouchEnd() returns (events: seq<Event>)
      requires Valid()
      modifies this`dragBlocked, this`isDragging, this`dragTargets, Members(dragTargets)`transform
      ensures Valid() && !dragBlocked && !isDragging
      ensures old(isDragging) ==>
                events == [DragStop] && dragTargets == []
                && forall e :: e in old(dragTargets) ==> e.transform == None
      ensures !old(isDragging) ==>
                events == [] && dragTargets == old(dragTargets) && unchanged(Members(old(dragTargets)))
    {
      dragBlocked := false;
      events := [];
      if isDragging {
        events := [DragStop];
        ClearDragTargets();
        isDragging := false;
      }
    }
  }
}
