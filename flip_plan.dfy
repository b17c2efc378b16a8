/**
 The per-record decisions of one animation pass (`componentDidUpdate` in
 src/index.js): what happens to a record that stays in the list, and what
 happens to a record that is leaving it. The pass itself, which applies these
 decisions to the records in place, is `Flip.FlipMove.ComponentDidUpdate`.
 */
module FlipPlan {
  import opened Common
  import opened Geometry

  /** The transform keyframes of an animation, from the first frame to the
      neutral one (moves and entries) or from the first to the final offset
      (leaves). */
  datatype Keyframes =
    | Move(dx: int, dy: int)          // translate(dx, dy) -> translate(0, 0)
    | Enter(width: int)               // translateX(-width) -> translateX(0)
    | Leave(fromX: Num, toX: int)     // translateX(left) -> translateX(finalX)

  /** An animation to start, with the target recorded in `animateToTop/Left`. */
  datatype Start = Start(toTop: int, toLeft: int, frames: Keyframes)

  /** The decision for a record of the current list whose node is mounted:
      leave the in-flight animation alone, or cancel it (if any) and maybe
      start a new one. */
  datatype Step = Tracking | Replan(start: Option<Start>)

  /** The decision for a leaving record. */
  datatype LeaveStep = AlreadyLeaving | Cull | Exit(finalX: int)

  /** The decision for a current record: `animating` says whether it has an
      animation, `pos` is its box sampled before the new render (absent for a
      record never sampled) and `rect` its box now. */
  function CurrentStep(animating: bool, animateToTop: Num, animateToLeft: Num,
                       pos: Option<Box>, rect: Box, v: Viewport): (s: Step)
    // the FLIP inversion: the first frame shows the node where it was
    ensures s.Replan? && s.start.Some? && s.start.value.frames.Move? ==>
      pos.Some? && rect.left + s.start.value.frames.dx == pos.value.left
      && rect.top + s.start.value.frames.dy == pos.value.top
    // every started animation runs towards the node's new top
    ensures s.Replan? && s.start.Some? ==> s.start.value.toTop == rect.top
    // a node never sampled can only enter, from one container width to the left
    ensures s.Replan? && s.start.Some? && pos.None? ==>
      s.start.value.frames == Enter(v.width) && s.start.value.toLeft == rect.left - v.width
    ensures s.Replan? && s.start.Some? && pos.Some? ==> s.start.value.toLeft == rect.left
    // a sampled node that moved slides back from its sampled box
    ensures s.Replan? && s.start.Some? && pos.Some? ==>
      s.start.value.frames == Move(pos.value.left - rect.left, pos.value.top - rect.top)
  {
    if animating && StrictEquals(animateToTop, Val(rect.top)) && StrictEquals(animateToLeft, Val(rect.left)) then
      Tracking
    else if pos.Some? then
      var dx, dy := pos.value.left - rect.left, pos.value.top - rect.top;
      Replan(if dx != 0 || dy != 0 then Some(Start(rect.top, rect.left, Move(dx, dy))) else None)
    else if Offscreen(rect, v) then
      Replan(None)
    else
      Replan(Some(Start(rect.top, rect.left - v.width, Enter(v.width))))
  }

  /** A record with a prior position is animated exactly when it moved, and
      a record without one exactly when its new box is on screen. */
  lemma CurrentStepStarts(animateToTop: Num, animateToLeft: Num, pos: Option<Box>, rect: Box, v: Viewport, animating: bool)
    requires CurrentStep(animating, animateToTop, animateToLeft, pos, rect, v).Replan?
    ensures var s := CurrentStep(animating, animateToTop, animateToLeft, pos, rect, v);
      s.start.Some? <==>
        if pos.Some? then pos.value.left != rect.left || pos.value.top != rect.top
        else !Offscreen(rect, v)
  {
  }

  /** An in-flight animation is kept only when it already runs to the new box. */
  lemma TrackingMeansSameTarget(animating: bool, animateToTop: Num, animateToLeft: Num, pos: Option<Box>, rect: Box, v: Viewport)
    ensures CurrentStep(animating, animateToTop, animateToLeft, pos, rect, v).Tracking? <==>
      animating && animateToTop == Val(rect.top) && animateToLeft == Val(rect.left)
  {
  }

  /** After a move is started, a second pass over the same layout keeps it. */
  lemma MoveIsIdempotent(animating: bool, animateToTop: Num, animateToLeft: Num, pos: Option<Box>, rect: Box, v: Viewport)
    requires var s := CurrentStep(animating, animateToTop, animateToLeft, pos, rect, v);
      s.Replan? && s.start.Some? && s.start.value.frames.Move?
    ensures var st := CurrentStep(animating, animateToTop, animateToLeft, pos, rect, v).start.value;
      CurrentStep(true, Val(st.toTop), Val(st.toLeft), pos, rect, v) == Tracking
  {
  }

  /** An entry records a target one container width left of its box, so a
      second pass over the same layout replaces it (unless the width is 0). */
  lemma EntryIsNotTracked(animating: bool, animateToTop: Num, animateToLeft: Num, pos: Option<Box>, rect: Box, v: Viewport)
    requires var s := CurrentStep(animating, animateToTop, animateToLeft, pos, rect, v);
      s.Replan? && s.start.Some? && s.start.value.frames.Enter?
    requires v.width != 0
    ensures var st := CurrentStep(animating, animateToTop, animateToLeft, pos, rect, v).start.value;
      CurrentStep(true, Val(st.toTop), Val(st.toLeft), pos, rect, v) == Replan(Some(st))
  {
  }

  /** `data.top` of a record, `undefined` when it was never sampled. */
  function TopOf(pos: Option<Box>): Num
  {
    if pos.Some? then Val(pos.value.top) else Undefined
  }

  /** `data.left` of a record, `undefined` when it was never sampled. */
  function LeftOf(pos: Option<Box>): Num
  {
    if pos.Some? then Val(pos.value.left) else Undefined
  }

  /** The decision for a leaving record. Comparisons with an unsampled
      (`undefined`) coordinate are false. The target left it compares with
      adds the never-assigned `data.width`, so it is `NaN`. */
  function LeaveStepOf(animating: bool, animateToTop: Num, animateToLeft: Num, pos: Option<Box>, v: Viewport): (s: LeaveStep)
    // the "already leaving" skip can never be taken
    ensures !s.AlreadyLeaving?
    // off-screen leaves are culled, on-screen ones always animate
    ensures s.Cull? <==> pos.Some? && Offscreen(pos.value, v)
    // the exit is one container width towards the side the node is on
    ensures s.Exit? ==> s.finalX == if pos.Some? && pos.value.left < 0 then -v.width else v.width
  {
    var finalX := if pos.Some? && pos.value.left < 0 then -v.width else v.width;
    var newLeft := Plus(Undefined, Val(finalX));
    if animating && StrictEquals(animateToTop, TopOf(pos)) && StrictEquals(animateToLeft, newLeft) then
      AlreadyLeaving
    else if pos.Some? && (pos.value.bottom < v.scrollTop || pos.value.top > v.maxHeight) then
      Cull
    else
      Exit(finalX)
  }
}
