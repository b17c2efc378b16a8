/**
 The DOM side of src/index.js: list-item nodes and their inline styles, Web
 Animations handles, the per-child record the component keeps, and the
 helpers that read and write them (`setBoundingRect`, `stopAnimation`,
 `_takeNodeOutOfFlow`, `_returnNodeToFlow`).

 The browser's layout is an input: `layout(node)` is what
 `node.getBoundingClientRect()` returns at the moment of the call.
 */
module FlipDom {
  import opened Common
  import opened Geometry
  import opened KeyedMap
  import opened FlipPlan

  /** The DOM node of one list item, with the inline styles the component writes. */
  class Node {
    /** `style.display === 'none'` */
    var hidden: bool
    /** `style.position === 'absolute'` (otherwise `''`) */
    var absolute: bool
    /** `style.top` in pixels; `None` is `''` */
    var styleTop: Option<int>

    constructor ()
      ensures !hidden && !absolute && styleTop == None
    {
      hidden, absolute, styleTop := false, false, None;
    }
  }

  /** `getBoundingClientRect()` of every node, as the browser lays them out. */
  type Layout = Node -> Box

  /** The variables one animation pass shares with its leave callbacks: the
      generation token it was started under and its count of leaves still
      running (`updateToken` and `nLeavesLeft` in the source). */
  class LeavePass {
    const token: nat
    var nLeavesLeft: int

    constructor (token: nat)
      ensures this.token == token && nLeavesLeft == 0
    {
      this.token := token;
      nLeavesLeft := 0;
    }
  }

  /** What the `onfinish` and `oncancel` callbacks of a leave animation capture. */
  datatype LeaveHandler = LeaveHandler(key: Key, node: Node, pass: LeavePass)

  /** A Web Animations handle, as returned by `node.animate(keyframes, options)`. */
  class Animation {
    const node: Node
    const frames: Keyframes
    /** `cancel()` has been called */
    var cancelled: bool
    /** the `onfinish`/`oncancel` callbacks; only leave animations have them */
    const handlers: Option<LeaveHandler>

    constructor (node: Node, frames: Keyframes, handlers: Option<LeaveHandler>)
      ensures this.node == node && this.frames == frames && this.handlers == handlers && !cancelled
    {
      this.node, this.frames, this.handlers := node, frames, handlers;
      cancelled := false;
    }

    method Cancel()
      modifies this`cancelled
      ensures cancelled
    {
      cancelled := true;
    }
  }

  /** The record kept for one child key: its node once mounted, its box
      (`top`, `left`, `bottom`) once sampled, its running animation and the
      box that animation runs to. */
  datatype Rec = Rec(node: Node?, pos: Option<Box>, animation: Animation?, animateToTop: Num, animateToLeft: Num)

  /** `_createElement`: a record with no node, no position and no animation. */
  function CreateElement(): (r: Rec)
    ensures r.node == null && r.pos.None? && r.animation == null
    ensures r.animateToTop == Undefined && r.animateToLeft == Undefined
  {
    Rec(null, None, null, Undefined, Undefined)
  }

  /** `setBoundingRect`: a mounted record stores its node's box relative to
      the container box `frame`; an unmounted record is left as it is. */
  function SetBoundingRect(r: Rec, frame: Box, layout: Layout): (r': Rec)
    ensures r.node == null ==> r' == r
    ensures r.node != null ==> r' == r.(pos := Some(GetBoundingRect(layout(r.node), frame)))
  {
    if r.node == null then r else r.(pos := Some(GetBoundingRect(layout(r.node), frame)))
  }

  /** Sampling twice under the same layout is sampling once. */
  lemma SetBoundingRectIdempotent(r: Rec, frame: Box, layout: Layout)
    ensures SetBoundingRect(SetBoundingRect(r, frame, layout), frame, layout) == SetBoundingRect(r, frame, layout)
  {
  }

  /** A revived leaving record: re-sampled and without its animation. */
  function Revived(r: Rec, frame: Box, layout: Layout): Rec
  {
    SetBoundingRect(r, frame, layout).(animation := null)
  }

  ghost function AnimationOf(r: Rec): set<Animation>
  {
    if r.animation == null then {} else {r.animation}
  }

  ghost function NodeOf(r: Rec): set<Node>
  {
    if r.node == null then {} else {r.node}
  }

  /** `stopAnimation`: cancel the record's animation, if any, and forget it. */
  method StopAnimation(r: Rec) returns (r': Rec)
    modifies AnimationOf(r)`cancelled
    ensures r' == r.(animation := null)
    ensures r.animation != null ==> r.animation.cancelled
  {
    var animation := r.animation;
    if animation != null {
      animation.Cancel();
    }
    r' := r.(animation := null);
  }

  /** `_returnNodeToFlow`: clear the absolute positioning. */
  method ReturnNodeToFlow(r: Rec)
    requires r.node != null
    modifies r.node`absolute, r.node`styleTop
    ensures !r.node.absolute && r.node.styleTop == None
  {
    var node := r.node;
    node.absolute := false;
    node.styleTop := None;
  }

  /** `_takeNodeOutOfFlow`: position the node absolutely at its sampled top.
      An unsampled top gives the style value 'undefinedpx', which the browser
      rejects, so `style.top` keeps its value. */
  method TakeNodeOutOfFlow(r: Rec)
    requires r.node != null
    modifies r.node`absolute, r.node`styleTop
    ensures r.node.absolute
    ensures r.node.styleTop == if r.pos.Some? then Some(r.pos.value.top) else old(r.node.styleTop)
  {
    var node := r.node;
    node.absolute := true;
    if r.pos.Some? {
      node.styleTop := Some(r.pos.value.top);
    }
  }

  /** Reviving a leaving record (src/index.js:117-120): re-sample it, stop
      its animation and return its node to the flow. */
  method Revive(r: Rec, frame: Box, layout: Layout) returns (r': Rec)
    requires r.node != null
    modifies AnimationOf(r)`cancelled, r.node`absolute, r.node`styleTop
    ensures r' == Revived(r, frame, layout)
    ensures !r.node.absolute && r.node.styleTop == None
    ensures r.animation != null ==> r.animation.cancelled
  {
    r' := SetBoundingRect(r, frame, layout);
    r' := StopAnimation(r');
    ReturnNodeToFlow(r');
  }
}
