# flip-move list animator and swipe recogniser, in Dafny

This project models the two algorithmic parts of a React list component.

- **`FlipMove`** (src/index.js) animates a keyed list with the FLIP technique.
  It keeps one record per child key, in two insertion-ordered dictionaries:
  the current children (`_children`) and the children that are leaving
  (`_deleting`). It renders the current children first, then the leaving ones.
  - When new props arrive, `componentWillReceiveProps` diffs the new key list
    against both dictionaries, and revives leaving children whose key comes
    back. It samples the box of every current child, of every revived child
    and of every child that starts leaving. A child that was already leaving
    and stays leaving keeps the box sampled when it started to leave
    (src/index.js:105-133).
  - After the browser lays the new list out, `componentDidUpdate` runs one
    animation pass. Each current record is animated from its old box to its
    new one, or slides in as an entry. Each leaving record is either hidden
    at once when it is off screen, or taken out of the flow and sent out with
    a leave animation.
  - A per-pass counter and a generation token decide when the container's
    pinned height is released.
- **The swipe recogniser** (src/register-swipe-handler.js) is a touch state
  machine on the list container.
  - A touch inside a list item becomes a horizontal drag once it has moved
    15 px sideways, unless it first moved 15 px vertically.
  - Moving left drags along the items above that are still on screen.
  - A mean velocity above 0.8 px/ms over the last 300 ms is a swipe. It is
    reported with the indexes of the dragged items.

Modules, file by file:

| file | module | what it holds |
|---|---|---|
| common.dfy | `Common` | `Option`; the JavaScript number values the animator compares (`undefined`, `NaN`, a number) |
| geometry.dfy | `Geometry` | boxes, `getBoundingRect`, the viewport of a pass |
| keyed_map.dfy | `KeyedMap` | a JavaScript object used as a dictionary: `OrderedMap` with `Put` and `Delete` |
| flip_plan.dfy | `FlipPlan` | the pure per-record decisions of a pass (`CurrentStep`, `LeaveStepOf`) |
| flip_dom.dfy | `FlipDom` | nodes and their styles, animations, leave-pass variables, the record, and the helpers `setBoundingRect`, `stopAnimation`, `_takeNodeOutOfFlow`, `_returnNodeToFlow` |
| diff.dfy | `Diff` | what the keyed diff does to the dictionaries (`Reconciled`), step by step |
| reconcile.dfy | `Reconcile` | the two diff loops, including their effects on nodes and animations |
| animation_pass.dfy | `AnimationPass` | the two loops of a pass |
| flip_move.dfy | `Flip` | the component class `FlipMove` and its lifecycle methods and callbacks |
| swipe_window.dfy | `SwipeWindow` | the velocity window: samples, the backward scan, trimming, the swipe test |
| swipe_handler.dfy | `Swipe` | the recogniser's state (class `Handler`), its three touch listeners, `elementIndexesFromNodes` |

The browser is a set of parameters, not part of the model:

- the container's client rectangle;
- `getBoundingClientRect()` of each node, as a function `layout`;
- the scroll offsets, the window height and the container width;
- the touched element and its ancestors;
- the previous siblings of the dragged item, with their `offsetTop`;
- the container's children;
- the clock.

Callbacks become return values or methods:

- The optional `onDragStart`/`onDragStop` callbacks and the `onSwipe`
  callback are the events a touch listener returns.
- The `onfinish`/`oncancel` callbacks of a leave animation are the methods
  `OnFinish` and `OnCancel`. The browser calls them.

Notable behaviour of the code, which the model follows:

- **Entries off screen are not animated.** A current record without a
  sampled position whose new box is off screen gets no entry animation
  (src/index.js:203-204).
- **Leaving records are always restarted.** The "already leaving to this
  target" skip for leaving records can never fire. Its target adds the
  never-assigned `data.width`, so it compares with `NaN`
  (src/index.js:220-225). A leaving record therefore gets a new leave
  animation on every pass that does not cull it, without its previous one
  being cancelled. This is proved as `FlipPlan.LeaveStepOf`'s first
  postcondition.
- **A second `onfinish` counts again.** A second `onfinish` for the same
  animation is not a no-op: `leaveAnimationOver` counts it again while the
  pass is current (src/index.js:247-252, 160-168). See
  `Flip.FlipMove.LeaveAnimationOver`.

## Model

| member | source | states |
|---|---|---|
| Common.Plus | src/index.js:220 | a sum of JavaScript numbers is a number exactly when both operands are numbers, and then it is their sum; otherwise it is `NaN` |
| Common.NaNEqualsNothing | src/index.js:222-224 | `NaN` is strictly equal to no value, itself included |
| Geometry.GetBoundingRect | src/index.js:29-36 | the sampled box has the node's height; shifted back by the frame's offset and the one-pixel margin correction, it is the node's client rectangle |
| Geometry.SampleIsFrameRelative | src/index.js:29-36 | scrolling node and container by the same amount does not change the sample |
| KeyedMap.Minus | src/index.js:231 | the keys of a list not in a set, in the list's order: exactly the members of the list outside the set, and never longer than the list |
| KeyedMap.OrderedMap.Put | src/index.js:109 | assignment to an object property: the result is well formed and holds `v` at `k`; other keys keep their values; a new key goes last and the old keys keep their order |
| KeyedMap.OrderedMap.Delete | src/index.js:121 | `delete`: the result is well formed, has lost exactly `k`, and the other keys keep their order |
| KeyedMap.PutThenDelete | src/index.js:117-121 | putting a new key and deleting it again gives back the same dictionary, order included |
| FlipPlan.CurrentStep | src/index.js:175-213 | the decision for a mounted current record. A sampled record that moved gets a move whose first frame puts the node back where it was sampled. Every started animation runs to the node's new top. An unsampled record can only enter, from one container width to the left |
| FlipPlan.CurrentStepStarts | src/index.js:185-212 | once replanned, a sampled record is animated exactly when it moved, and an unsampled one exactly when its new box is on screen |
| FlipPlan.TrackingMeansSameTarget | src/index.js:176-180 | a running animation is kept exactly when it already runs to the new box |
| FlipPlan.MoveIsIdempotent | src/index.js:186-199 | after a move is started, a second pass over the same layout keeps it |
| FlipPlan.EntryIsNotTracked | src/index.js:206-212 | an entry records a target one width left of its box, so a second pass over the same layout restarts it (when the width is not 0) |
| FlipPlan.LeaveStepOf | src/index.js:218-234 | the decision for a leaving record. It is never "already leaving". It culls exactly the records sampled off screen. An exit goes one container width towards the side the node is on |
| FlipDom.CreateElement | src/index.js:62-72 | a new record has no node, no position, no animation and no targets |
| FlipDom.SetBoundingRect | src/index.js:16-27 | an unmounted record is unchanged; a mounted one stores its node's box relative to the container and nothing else changes |
| FlipDom.SetBoundingRectIdempotent | src/index.js:16-27 | sampling twice under the same layout is sampling once |
| FlipDom.StopAnimation | src/index.js:6-12 | the record loses its animation, which is cancelled, and nothing else changes |
| FlipDom.ReturnNodeToFlow | src/index.js:272-276 | the node is no longer absolutely positioned and has no `top` style |
| FlipDom.TakeNodeOutOfFlow | src/index.js:266-270 | the node is absolutely positioned at its sampled top; an unsampled top leaves `style.top` as it was |
| FlipDom.Revive | src/index.js:117-120 | a revived record is re-sampled and loses its animation, which is cancelled, and its node is back in the flow |
| Diff.IncomingKeep | src/index.js:107-113 | a current key of the new list keeps its record, re-sampled, and the first loop's invariant advances |
| Diff.IncomingRevive | src/index.js:115-121 | a leaving key of the new list gets its leaving record back, revived, and stops leaving |
| Diff.IncomingCreate | src/index.js:123-125 | a key in neither dictionary gets a new record |
| Diff.OutgoingStay | src/index.js:128-129 | a current key the new list keeps is not added to the leaving dictionary |
| Diff.OutgoingMove | src/index.js:129-132 | a current key the new list lacks is re-sampled and appended to the leaving dictionary |
| Diff.DiffDone | src/index.js:105-134 | after both loops, the diff has done all of `Reconciled` (described in the next row) |
| Diff.NothingVanishes | src/index.js:105-134 | no key is lost by a diff: the keys rendered after it are the new keys plus the old current and leaving keys, and a key leaves exactly when the new list lacks it |
| Reconcile.KeepAt | src/index.js:107-113 | one current key of the new list: its record kept and re-sampled |
| Reconcile.ReviveStep | src/index.js:115-121 | one leaving key of the new list: its record revived in the DOM, moved to the new current dictionary, deleted from the leaving one. No node or animation of another leaving record is touched |
| Reconcile.CreateAt | src/index.js:123-125 | one new key: a new record |
| Reconcile.IncomingStep | src/index.js:106-125 | one key of the new list, by the three cases above. Only the record it revives, if any, has its node and animation touched |
| Reconcile.ReviveAt | src/index.js:115-121 | the revived record is re-sampled, loses its animation and is back in the flow. Every record revived before it stays in the flow. No node or animation of a leaving record that is not revived is touched |
| Reconcile.DiffIncoming | src/index.js:105-126 | the first loop. The new current dictionary is the new list, each key with its record by provenance. The leaving dictionary has lost the new keys. Every revived node is back in the flow with its animation cancelled. The nodes and animations of the leaving records not revived keep their styles and their `cancelled` flag |
| Reconcile.DiffOutgoing | src/index.js:128-133 | the second loop. Every current key the new list lacks is appended, re-sampled, to the leaving dictionary, in its old order |
| Reconcile.KeyedDiff | src/index.js:102-134 | the whole diff (`Diff.Reconciled`, detailed in the items below). Every revived node is back in the flow with its animation cancelled; no other leaving node or animation is touched |
| AnimationPass.PlanCurrent | src/index.js:171-213 | one current record goes through the pass. It is unchanged when unmounted or already on target. Otherwise it loses its animation, which is cancelled, and gets a new one when it moved or enters on screen. An animation it keeps keeps its `cancelled` flag, and a started one is new and not cancelled |
| AnimationPass.CurrentAt | src/index.js:170-214 | the loop step over the current records. The other records are unchanged. An animation the record drops is cancelled, one it starts is new and not cancelled, and no other animation of a current record has its `cancelled` flag changed |
| AnimationPass.AnimateCurrent | src/index.js:170-214 | every current record goes through the pass. Every animation dropped is cancelled. Every animation started is new. An animation a record keeps keeps its `cancelled` flag |
| AnimationPass.CullAt | src/index.js:229-234 | an off-screen leaving record has its node hidden, in place, and its key deleted; no leave is counted. The other leaving nodes keep their styles, and the other leaving records are unchanged |
| AnimationPass.HideAt | src/index.js:230-231 | the node of the culled record is hidden and keeps its position styles; every other leaving node keeps its styles |
| AnimationPass.ExitAt | src/index.js:236-254 | an on-screen leaving record is taken out of the flow and given a leave animation, with callbacks that capture key, node and pass; one more leave is counted. Its node is not hidden: it keeps its visibility and is absolutely positioned at its sampled top. Its leave animation is new and not cancelled; the other leaving nodes keep their styles, and the other leaving records are unchanged |
| AnimationPass.ExitNode | src/index.js:236-245 | the node is taken out of the flow at its sampled top and keeps its visibility. The leave animation is new and not cancelled. It goes from the sampled left to one container width towards the side the node is on, with callbacks that capture key, node and pass; the recorded target is the sampled top and `NaN`. The pass counts one more leave, and no other leaving node changes |
| AnimationPass.LeaveAt | src/index.js:217-255 | the loop step over the leaving records: the record is culled or it exits, as `LeaveStepOf` decides, and the leave count and the node styles follow. A leave animation it starts is new and not cancelled, and the other leaving records are unchanged |
| AnimationPass.LeaveBy | src/index.js:229-254 | a record sampled off screen is culled, any other exits; the leave count and the node styles follow. A leave animation it starts is new and not cancelled, and the other leaving records are unchanged |
| AnimationPass.AnimateLeaves | src/index.js:216-255 | every leaving record goes through the pass. Each one is culled or exits. One leave is counted per record kept. `culled` says whether any record was hidden. A culled node is hidden in place; a kept one keeps its visibility and is out of the flow at its sampled top |
| AnimationPass.StylesRestyled | src/index.js:229-245 | after the loop, the styles of the leaving nodes are exactly those `Restyled` gives: hidden for a culled record, out of the flow at the sampled top for a kept one, everything else as before |
| AnimationPass.LeavesDone | src/index.js:216-255 | after the loop, the leaving dictionary holds exactly the keys not culled, in order. The count of leaves started is its size. A pass that culls nothing keeps its list |
| Flip.Blank | src/index.js:75 | `_.mapValues(_.keyBy(...), _createElement)`: a new record for every key, in list order |
| Flip.PassViewport | src/index.js:153-156 | the visible height of a pass is the window height below the container's top, moved down by the scroll offset |
| Flip.RenderedDistinct | src/index.js:143-146 | the rendered list (current keys, then leaving keys) has no repeated key and holds every key of both dictionaries |
| Flip.FlipMove.constructor | src/index.js:40-47 | no current list, no leaving children, nothing rendered |
| Flip.FlipMove.SetChildren | src/index.js:143-146 | React renders the current keys, then the leaving ones |
| Flip.FlipMove.InitComponent | src/index.js:74-77 | a new record per key, and exactly those keys rendered |
| Flip.FlipMove.ComponentWillMount | src/index.js:83-87 | the first list initialises the component and its invariant holds |
| Flip.FlipMove.AttachNode | src/index.js:65-69 | the `ref` callback: the record held for the key, current or leaving, gets the node; a `null` node or an unknown key changes nothing |
| Flip.FlipMove.ComponentWillReceiveProps | src/index.js:89-141 | the same children array changes nothing. The first list gives a new record per key. A later list is reconciled: the current keys are exactly the new list with each record by provenance, the two dictionaries stay disjoint, and revived nodes are back in the flow while no other leaving node or animation is touched. Either way a new token is issued and the container's height is pinned |
| Flip.FlipMove.ReceiveFirst | src/index.js:96-140 | new props before the first list: it initialises the component under a new token and pins the container's height |
| Flip.FlipMove.ReceiveLater | src/index.js:101-140 | new props once the list is known: the diff, its rendering, a new token and the pinned height. Revived nodes are back in the flow; no other leaving node or animation is touched |
| Flip.FlipMove.TakeProps | src/index.js:134-140 | the diffed dictionaries and their rendering, the new props, a new token, the pinned height |
| Flip.FlipMove.LeaveAnimationOver | src/index.js:160-168 | a superseded pass's callback changes nothing. Otherwise one leave fewer is counted, and the height is released once the count is 0 or below |
| Flip.FlipMove.ComponentDidUpdate | src/index.js:148-264 | without new props, nothing changes. Otherwise one pass runs under the current token. Every current record is moved, and every animation it starts is new. Every leaving record is culled or exits. One leave is counted per record kept, and the height is released at once when there is none. The invariant holds |
| Flip.FlipMove.RunPass | src/index.js:150-263 | one pass over the dictionaries: the effects listed for `ComponentDidUpdate` |
| Flip.FlipMove.EndPass | src/index.js:256-263 | the end of a pass. It re-renders when something was culled. With no leave started it calls `leaveAnimationOver`. The new props are consumed |
| Flip.FlipMove.OnFinish | src/index.js:247-252 | the node is hidden and its key dropped from the leaving children. A superseded pass's counter and the height are untouched. Under the current token one leave fewer is counted and the height is released once the count is 0 or below. While the pass counts one leave per leaving child, it goes on doing so |
| Flip.FlipMove.DropLeaving | src/index.js:249-250 | the key is deleted from the leaving dictionary and the invariant holds |
| Flip.FlipMove.OnCancel | src/index.js:254 | the leave is counted as over, by `leaveAnimationOver` |
| FlipDom.Animation.Cancel | src/index.js:6-12 | `cancel()`: the animation is cancelled |
| AnimationPass.AnimatePass | src/index.js:170-255 | both loops of a pass. The dictionaries stay disjoint. The current keys are unchanged. The leaving keys are unchanged unless something was culled. One leave is counted per record kept. Every current record is moved; the animations it drops are cancelled and no other is; the ones it starts are new. Every leaving record is culled or exits, and its node is restyled accordingly |
| SwipeWindow.MeasureWindow | src/register-swipe-handler.js:112-127 | the backward scan stops at the start of the window: every run of samples from the start on spans under 300 ms, and the run from the sample before it does not. The time and distance returned are those of the window |
| SwipeWindow.WindowStartUnique | src/register-swipe-handler.js:112-127 | the window's start is determined by the samples |
| SwipeWindow.Trim | src/register-swipe-handler.js:121-122 | with more than 20 samples below the one that reached the window, all but one of them are dropped, and the buffer is the newest samples in order; otherwise the buffer is kept |
| SwipeWindow.TrimKeepsWindow | src/register-swipe-handler.js:118-124 | trimming keeps the window as the newest samples, and measuring again finds the same window |
| SwipeWindow.IsSwipe | src/register-swipe-handler.js:129-131 | the swipe test: no swipe without distance |
| SwipeWindow.IsSwipeExact | src/register-swipe-handler.js:129-131 | the integer test agrees with `cumDistance / cumTime > 0.8` for every non-zero time |
| SwipeWindow.IsSwipeEdges | src/register-swipe-handler.js:129-131 | with no time, a swipe is any positive distance (`Infinity`); with no distance there is never a swipe |
| Swipe.PageScrollTop | src/register-swipe-handler.js:77-79 | the page scroll offset is the document element's, or the body's when that one is 0 |
| Swipe.NewSample | src/register-swipe-handler.js:105-108 | the new sample's time added to the last move's time is now, and its distance is the absolute difference between the last move's x and the touch's |
| Swipe.GrabsUnique | src/register-swipe-handler.js:25-32 | a touch grabs at most one list item |
| Swipe.FindItem | src/register-swipe-handler.js:25-32 | the ancestor walk finds the grabbed item, and finds none exactly when no item is grabbed (a `UL`, the `BODY` or the top comes first) |
| Swipe.VisibleRunUnique | src/register-swipe-handler.js:82-96 | the run of siblings taken along is determined by the siblings and the scroll offset |
| Swipe.CountVisible | src/register-swipe-handler.js:82-96 | the sibling walk takes the longest run of previous siblings whose `offsetTop` is at least the scroll offset minus 1 |
| Swipe.IndexOf | src/register-swipe-handler.js:166 | `indexOf`: -1 exactly when absent, else an index holding the element with no earlier occurrence |
| Swipe.ElementIndexes | src/register-swipe-handler.js:164-167 | one index per node, in order: -1 exactly when the node is not a child, else the first index of that node among the children |
| Swipe.Handler.constructor | src/register-swipe-handler.js:10-44 | nothing dragged, no samples, not dragging, not blocked, last move at `Infinity` and `-Infinity` |
| Swipe.Handler.ClearDragTargets | src/register-swipe-handler.js:13-18 | every item dragged before loses its translation, and none is dragged |
| Swipe.Handler.TranslateTargets | src/register-swipe-handler.js:148-150 | every dragged item is translated by the distance from the touch start |
| Swipe.Handler.TouchStart | src/register-swipe-handler.js:23-39 | the old targets lose their translation. A touch in a list item drags exactly that item and records the start position and time. Any other touch leaves nothing dragged, so the next move does nothing. `dragBlocked` and `isDragging` are untouched |
| Swipe.Handler.Grab | src/register-swipe-handler.js:34-38 | the grabbed item is the only target, with the start position and time |
| Swipe.Handler.TouchMove | src/register-swipe-handler.js:48-151 | with nothing dragged or the gesture blocked, nothing changes and nothing is reported. A vertical move of 15 px before a drag blocks the gesture. A swipe blocks the gesture, stops the drag and lets go of the targets. The events are none, a drag start, or end with a swipe |
| Swipe.Handler.StartCheck | src/register-swipe-handler.js:53-71 | the vertical test comes first: 15 px vertically blocks the gesture. Under that, 15 px horizontally starts the drag from the start position with the samples emptied. Otherwise nothing changes |
| Swipe.Handler.Adjust | src/register-swipe-handler.js:73-103 | moving left with one item appends the visible run of previous siblings. Moving right with several items drops the last one and resets its translation. Otherwise the targets are unchanged |
| Swipe.Handler.Extend | src/register-swipe-handler.js:95 | the siblings are appended to the targets |
| Swipe.Handler.DropLast | src/register-swipe-handler.js:99-103 | the last target is dropped and loses its translation |
| Swipe.Handler.Sample | src/register-swipe-handler.js:105-127 | the new sample (time since the last move, distance from its x) is appended and the window measured; the buffer is trimmed at the window |
| Swipe.Handler.Advance | src/register-swipe-handler.js:105-150 | a swipe happens exactly when the window's velocity passes the test. A swipe reports a drag stop, then the targets' indexes. It blocks the gesture, ends the drag and empties the targets without resetting translations, and leaves the last move as it was. Otherwise the last move is updated and every target follows the touch |
| Swipe.Handler.FinishSwipe | src/register-swipe-handler.js:131-143 | the gesture is blocked, the drag stops, the events are a drag stop and the targets' indexes, and no item is dragged |
| Swipe.Handler.Follow | src/register-swipe-handler.js:145-150 | the move is remembered and every target follows the touch |
| Swipe.Handler.TouchEnd | src/register-swipe-handler.js:153-161 | the gesture is always unblocked. A drag in progress reports a drag stop, resets every target's translation, drops them and ends. Otherwise nothing else changes |

Three contracts bear on how many swipes are reported between two touch
ends:

- `Swipe.Handler.TouchMove` reports a swipe only while unblocked, and a
  swipe leaves the gesture blocked.
- `Swipe.Handler.TouchStart` cannot write `dragBlocked`.
- Only `Swipe.Handler.TouchEnd` clears it.

Together they imply at most one swipe between two touch ends. No lemma
states this over a sequence of calls.

## Left out

- **Web Animations missing** (`state.enabled`, src/index.js:14, 42, 51-52,
  84-85, 90-91). The model assumes the browser supports Web Animations. The
  fallback that renders the children unanimated is not modelled.
- **`render` and React glue.** `render`, `_getDom`, `setState` batching and
  React's lifecycle scheduling are left out. A `setState` is an immediate
  assignment of the rendered key list, and only the keys of elements are
  modelled.
- **Animation details.** Durations, easing, `fill` and CSS strings are left
  out. Keyframes are a datatype of offsets, and `style.display`,
  `style.position` and `style.top` are fields of the node.
- **Record identity.** Records are values held in the dictionaries, not
  shared objects. The `ref` callback reaches its record by key
  (`Flip.FlipMove.AttachNode`), not by closure over the object.
- **Layout.** The layout is fixed during one call. Reflow caused by
  `_returnNodeToFlow` within the same diff is not modelled. Pixels and
  milliseconds are integers.
- **Duplicate keys.** `Flip.FlipMove.ComponentWillReceiveProps` and
  `Flip.FlipMove.ComponentWillMount` require distinct keys. With
  duplicates, `_.keyBy` would keep only the last element of each key.
  Object keys that look like array indices, which JavaScript enumerates
  first, are not modelled.
- **Reviving an unmounted record.**
  `Flip.FlipMove.ComponentWillReceiveProps` requires that every leaving
  record it revives has a node. Without one, `_returnNodeToFlow` throws
  (src/index.js:273-274).
- `Flip.FlipMove.ComponentDidUpdate` requires that every leaving record has
  a node. Without one, the leave loop throws (src/index.js:227-230). It
  also requires that no two leaving records share a node, as React mounts
  one node per key.
- `Flip.FlipMove.ComponentDidUpdate` does not restate what the pass does to
  nodes and animations: which animations are cancelled, and the styles of
  the leaving nodes. `AnimationPass.AnimatePass`, which it runs through
  `RunPass`, states both.
- `Flip.FlipMove.ComponentDidUpdate` also does not state that the
  animations the pass starts are still uncancelled when it ends. See
  `AnimationPass.AnimatePass` below.
- `Flip.FlipMove.RunPass` likewise leaves the cancelled animations and the
  leaving nodes' styles to `AnimationPass.AnimatePass`, which it calls. It
  does not state that the animations it starts are still uncancelled
  either.
- `AnimationPass.AnimateCurrent` states that every animation it starts is
  new, but not that it is still uncancelled when the loop ends. Each step
  states that (`AnimationPass.CurrentAt`). A loop invariant carrying it
  across the steps went over the verifier's resource limit.
- `AnimationPass.AnimateLeaves` does not state that the leave animations
  it keeps are new and uncancelled when the loop ends. Each step states it
  (`AnimationPass.LeaveAt`), as does `AnimationPass.ExitNode`. A loop
  invariant carrying it across the steps went over the verifier's resource
  limit.
- `AnimationPass.AnimatePass` states the newness of the current records'
  animations and nothing about any started animation being uncancelled at
  its end, for the reasons given for its two loops.
- **Keys naming built-in properties.** The dictionaries are plain objects,
  so a key such as `constructor` or `toString` finds an inherited property
  at src/index.js:107 and :115 and is taken for an existing record. The
  model's dictionaries hold only the keys put in them.
- **`Flip.FlipMove.ComponentWillMount`** also requires that no list is known
  yet. React calls it once, before any props change.
- **Callback context.** `Flip.FlipMove.OnFinish` and `Flip.FlipMove.OnCancel`
  run with the component's current state; when the browser calls them is
  not modelled.
- **Scroll offset.** The page scroll offset of `componentWillReceiveProps`
  and `componentDidUpdate` is a parameter. The `document.body.scrollTop`
  default applies only when `document.documentElement.scrollTop` is
  undefined.
- **Sibling walk.** In the swipe recogniser, previous siblings are elements
  with an `offsetTop`. A text-node sibling, whose `offsetTop` is
  `undefined`, is not modelled.
- **Touches.** Only the first touch of an event (`event.touches[0]`) is
  seen, as the coordinates `x`, `y`.
- **`Swipe.Handler.TouchMove`** states the outcome of a move as a whole
  (nothing, a drag start, a block, a swipe). The effects of each phase are
  in `StartCheck`, `Adjust` and `Advance`, which it calls in that order.
- **Optional callbacks.** The `if (onDragStart)` and `if (onDragStop)` tests
  are left out: the events are always returned, and a caller without the
  callback ignores them.
- **Velocity test.** The floating-point test `cumDistance / cumTime > 0.8`
  is replaced by exact integer arithmetic. `SwipeWindow.IsSwipeExact` shows
  it agrees with the real quotient, and `SwipeWindow.IsSwipeEdges` covers
  the zero cases (`Infinity` and `NaN`). Floating-point rounding is not
  modelled.
- **Undefined start position.** `startX` and `startY` start at 0 instead of
  `undefined`. They are read only while an item is dragged, which a touch
  start that set them must precede.
