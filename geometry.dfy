/**
 The geometry sampler: the box of a node measured relative to a reference
 frame (the list container), with the fixed one-pixel vertical correction the
 animator applies to compensate for the items' negative margin.
 */
module Geometry {

  /** A vertical span and a horizontal offset, in whole pixels. */
  datatype Box = Box(top: int, left: int, bottom: int)

  /** The box translated by `dx` pixels to the right and `dy` pixels down. */
  function Shift(b: Box, dx: int, dy: int): Box
  {
    Box(b.top + dy, b.left + dx, b.bottom + dy)
  }

  /** The viewport of one animation pass: scroll offset, lowest visible
      container-relative coordinate, and the container's width. */
  datatype Viewport = Viewport(scrollTop: int, maxHeight: int, width: int)

  /** `getBoundingRect`: the client rectangle `rect` of a node seen from the
      client rectangle `frame` of the container. */
  function GetBoundingRect(rect: Box, frame: Box): (b: Box)
    ensures b.bottom - b.top == rect.bottom - rect.top
    ensures Shift(b, frame.left, frame.top - 1) == rect
  {
    Box(rect.top - frame.top + 1, rect.left - frame.left, rect.bottom - frame.top + 1)
  }

  /** Only the relative position of node and frame matters: scrolling both
      by the same amount does not change the sample. */
  lemma SampleIsFrameRelative(rect: Box, frame: Box, dx: int, dy: int)
    ensures GetBoundingRect(Shift(rect, dx, dy), Shift(frame, dx, dy)) == GetBoundingRect(rect, frame)
  {
  }

  /** A box is off screen when it ends above the scroll offset or starts
      below the visible height. */
  predicate Offscreen(b: Box, v: Viewport)
  {
    b.bottom < v.scrollTop || b.top > v.maxHeight
  }
}
