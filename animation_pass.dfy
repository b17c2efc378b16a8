/**
 The two loops of one animation pass (`componentDidUpdate`,
 src/index.js:170-255). The first applies `FlipPlan.CurrentStep` to every
 record of the current list; the second applies `FlipPlan.LeaveStepOf` to
 every leaving record, hiding the ones off screen and sending the others out
 of the flow with a leave animation whose callbacks report to the pass.
 */
module AnimationPass {
  import opened Common
  import opened Geometry
  import opened KeyedMap
  import opened FlipPlan
  import opened FlipDom
  import opened Diff
  import opened Reconcile

  /** A started animation `r'.animation` on the record's node, with the
      keyframes towards the target `st`, recorded in the record. That it is
      new and not cancelled is stated where it is created (`PlanCurrent`). */
  ghost predicate Started(r: Rec, r': Rec, st: Start)
  {
    && r'.animation != null
    && r' == r.(animation := r'.animation, animateToTop := Val(st.toTop), animateToLeft := Val(st.toLeft))
    && r'.animation.node == r.node && r'.animation.frames == st.frames && r'.animation.handlers.None?
  }

  /** What a pass makes of a current record `r` (src/index.js:171-213):
      an unmounted record and one already animating to its new box stay as
      they are; otherwise the animation is dropped and, if the record moved
      or enters on screen, a new one started. */
  ghost predicate Moved(r: Rec, r': Rec, frame: Box, layout: Layout, v: Viewport)
  {
    if r.node == null then r' == r
    else
      match CurrentStep(r.animation != null, r.animateToTop, r.animateToLeft, r.pos, GetBoundingRect(layout(r.node), frame), v)
      case Tracking => r' == r
      case Replan(None) => r' == r.(animation := null)
      case Replan(Some(st)) => Started(r, r', st)
  }

  /** An animation the pass takes away from a record has been cancelled. */
  ghost predicate Retired(r: Rec, r': Rec)
    reads AnimationOf(r)`cancelled
  {
    r.animation != null && r'.animation != r.animation ==> r.animation.cancelled
  }

  /** One current record (src/index.js:171-213). */
  method PlanCurrent(r: Rec, frame: Box, layout: Layout, v: Viewport) returns (r': Rec)
    modifies AnimationOf(r)`cancelled
    ensures Moved(r, r', frame, layout, v)
    ensures Retired(r, r')
    ensures r.animation != null && old(r.animation.cancelled) ==> r.animation.cancelled
    ensures r'.animation != r.animation && r'.animation != null ==> fresh(r'.animation) && !r'.animation.cancelled
    ensures r'.animation == r.animation && r.animation != null ==> r.animation.cancelled == old(r.animation.cancelled)
  {
    if r.node == null {
      return r;
    }
    var rect := GetBoundingRect(layout(r.node), frame);
    var s := CurrentStep(r.animation != null, r.animateToTop, r.animateToLeft, r.pos, rect, v);
    if s.Tracking? {
      return r;
    }
    r' := StopAnimation(r);
    if s.start.Some? {
      var st := s.start.value;
      var animation := new Animation(r.node, st.frames, None);
      r' := r'.(animateToTop := Val(st.toTop), animateToLeft := Val(st.toLeft), animation := animation);
    }
  }

  /** The first `j` current records have been through the pass, the others
      not yet. */
  ghost predicate MovedUpTo(C: OrderedMap<Rec>, j: nat, nc: OrderedMap<Rec>, frame: Box, layout: Layout, v: Viewport)
  {
    && C.Valid() && j <= |C.keys| && nc.Valid() && nc.keys == C.keys
    && (forall i :: 0 <= i < j ==> Moved(C.entries[C.keys[i]], nc.entries[C.keys[i]], frame, layout, v))
    && (forall i :: j <= i < |C.keys| ==> nc.entries[C.keys[i]] == C.entries[C.keys[i]])
  }

  /** The animations taken from the first `j` records have been cancelled. */
  ghost predicate RetiredUpTo(C: OrderedMap<Rec>, j: nat, nc: OrderedMap<Rec>)
    reads AnimationsIn(C.entries)`cancelled
  {
    forall i :: 0 <= i < j && i < |C.keys| && C.keys[i] in C.entries && C.keys[i] in nc.entries ==>
      Retired(C.entries[C.keys[i]], nc.entries[C.keys[i]])
  }

  /** The animations the pass has taken from the first `j` current records. */
  ghost function Dropped(C: OrderedMap<Rec>, j: nat, nc: OrderedMap<Rec>): set<Animation>
  {
    set i | 0 <= i < j && i < |C.keys| && C.keys[i] in C.entries && C.keys[i] in nc.entries
              && C.entries[C.keys[i]].animation != null
              && nc.entries[C.keys[i]].animation != C.entries[C.keys[i]].animation
      :: C.entries[C.keys[i]].animation
  }

  /** The pass has cancelled no animation of a current record but those it
      took from the first `j` records: an animation a record keeps is left
      running. */
  twostate predicate OnlyDropped(C: OrderedMap<Rec>, j: nat, new nc: OrderedMap<Rec>)
    reads AnimationsIn(C.entries)
  {
    forall a :: a in AnimationsIn(C.entries) && a !in Dropped(C, j, nc) ==> a.cancelled == old(a.cancelled)
  }

  /** What the pass took from the first `j` records it still holds taken
      once it has been through record `j`. */
  lemma DroppedGrow(C: OrderedMap<Rec>, j: nat, nc: OrderedMap<Rec>, nc': OrderedMap<Rec>)
    requires j < |C.keys|
    requires forall i :: 0 <= i < j && C.keys[i] in nc.entries ==>
      C.keys[i] in nc'.entries && nc'.entries[C.keys[i]] == nc.entries[C.keys[i]]
    ensures Dropped(C, j, nc) <= Dropped(C, j + 1, nc')
  {
    forall a | a in Dropped(C, j, nc)
      ensures a in Dropped(C, j + 1, nc')
    {
      var i :| 0 <= i < j && i < |C.keys| && C.keys[i] in C.entries && C.keys[i] in nc.entries
              && C.entries[C.keys[i]].animation != null
              && nc.entries[C.keys[i]].animation != C.entries[C.keys[i]].animation
              && a == C.entries[C.keys[i]].animation;
    }
  }

  /** The `j`-th current record goes through the pass. */
  method CurrentAt(C: OrderedMap<Rec>, j: nat, nc: OrderedMap<Rec>, frame: Box, layout: Layout, v: Viewport)
    returns (nc': OrderedMap<Rec>)
    requires j < |C.keys| && MovedUpTo(C, j, nc, frame, layout, v) && RetiredUpTo(C, j, nc)
    modifies AnimationsIn(C.entries)`cancelled
    ensures MovedUpTo(C, j + 1, nc', frame, layout, v) && RetiredUpTo(C, j + 1, nc')
    ensures forall i :: 0 <= i < |C.keys| && i != j ==> nc'.entries[C.keys[i]] == nc.entries[C.keys[i]]
    ensures var k := C.keys[j];
      nc'.entries[k].animation != C.entries[k].animation && nc'.entries[k].animation != null ==>
        fresh(nc'.entries[k].animation) && !nc'.entries[k].animation.cancelled
    ensures OnlyDropped(C, j + 1, nc')
  {
    var key := C.keys[j];
    var r := C.entries[key];
    var r' := PlanCurrent(r, frame, layout, v);
    nc' := nc.Put(key, r');
    assert r.animation != null && r'.animation != r.animation ==> r.animation in Dropped(C, j + 1, nc');
    MovedStep(C, j, nc, r', frame, layout, v);
    forall i | 0 <= i < j + 1 && i < |C.keys| && C.keys[i] in C.entries && C.keys[i] in nc'.entries
      ensures Retired(C.entries[C.keys[i]], nc'.entries[C.keys[i]])
    {
      if i < j {
        assert nc'.entries[C.keys[i]] == nc.entries[C.keys[i]];
        assert old(Retired(C.entries[C.keys[i]], nc.entries[C.keys[i]]));
      } else {
        assert C.keys[i] == key;
      }
    }
  }

  lemma MovedStep(C: OrderedMap<Rec>, j: nat, nc: OrderedMap<Rec>, r': Rec, frame: Box, layout: Layout, v: Viewport)
    requires j < |C.keys| && MovedUpTo(C, j, nc, frame, layout, v)
    requires Moved(C.entries[C.keys[j]], r', frame, layout, v)
    ensures MovedUpTo(C, j + 1, nc.Put(C.keys[j], r'), frame, layout, v)
    ensures forall i :: 0 <= i < |C.keys| && i != j ==> nc.Put(C.keys[j], r').entries[C.keys[i]] == nc.entries[C.keys[i]]
  {
    assert forall i :: 0 <= i < |C.keys| && i != j ==> C.keys[i] != C.keys[j];
  }

  /** The animations a pass started on the first `j` records are new. */
  twostate predicate StartedFresh(C: OrderedMap<Rec>, j: nat, new nc: OrderedMap<Rec>)
  {
    forall i :: 0 <= i < j && i < |C.keys| && C.keys[i] in C.entries && C.keys[i] in nc.entries
      && nc.entries[C.keys[i]].animation != C.entries[C.keys[i]].animation
      && nc.entries[C.keys[i]].animation != null
      ==> fresh(nc.entries[C.keys[i]].animation)
  }

  /** The loop over the current records (src/index.js:170-214). */
  method AnimateCurrent(C: OrderedMap<Rec>, frame: Box, layout: Layout, v: Viewport) returns (nc: OrderedMap<Rec>)
    requires C.Valid()
    modifies AnimationsIn(C.entries)`cancelled
    ensures MovedUpTo(C, |C.keys|, nc, frame, layout, v) && RetiredUpTo(C, |C.keys|, nc)
    ensures StartedFresh(C, |C.keys|, nc) && OnlyDropped(C, |C.keys|, nc)
  {
    nc := C;
    var j := 0;
    while j < |C.keys|
      invariant MovedUpTo(C, j, nc, frame, layout, v) && RetiredUpTo(C, j, nc)
      invariant StartedFresh(C, j, nc) && OnlyDropped(C, j, nc)
    {
      var nc' := CurrentAt(C, j, nc, frame, layout, v);
      DroppedGrow(C, j, nc, nc');
      nc, j := nc', j + 1;
    }
  }

  /** What a pass makes of a leaving record `r` under key `k` that it does
      not hide (src/index.js:236-254): the record runs a new leave animation
      whose callbacks capture the key, the node and the pass, towards a
      recorded target of its own top and a left of `NaN`. */
  ghost predicate Exited(k: Key, r: Rec, r': Rec, pass: LeavePass, v: Viewport)
  {
    var s := LeaveStepOf(r.animation != null, r.animateToTop, r.animateToLeft, r.pos, v);
    && s.Exit?
    && r'.animation != null
    && r' == r.(animation := r'.animation, animateToTop := TopOf(r.pos), animateToLeft := NaN)
    && r'.animation.node == r.node
    && r'.animation.frames == Leave(LeftOf(r.pos), s.finalX)
    && r'.animation.handlers == Some(LeaveHandler(k, r.node, pass))
  }

  /** The leaving records a pass hides at once: those sampled off screen. */
  ghost function Culled(D: map<Key, Rec>, v: Viewport): set<Key>
  {
    set k | k in D && D[k].pos.Some? && Offscreen(D[k].pos.value, v)
  }

  /** Every leaving record has a node (the pass writes its style). */
  ghost predicate LeavingMounted(D: map<Key, Rec>)
  {
    forall k :: k in D ==> D[k].node != null
  }

  /** The first `j` leaving keys have been through the pass: the hidden
      ones are gone, the others exit; the rest are untouched. */
  ghost predicate LeftUpTo(D0: OrderedMap<Rec>, j: nat, D: OrderedMap<Rec>, pass: LeavePass, v: Viewport)
  {
    LeftKeys(D0, j, D, v) && LeftExited(D0, j, D, pass, v) && LeftRest(D0, j, D)
  }

  ghost predicate LeftKeys(D0: OrderedMap<Rec>, j: nat, D: OrderedMap<Rec>, v: Viewport)
  {
    && D0.Valid() && j <= |D0.keys| && D.Valid()
    && D.keys == Minus(D0.keys, Culled(D0.entries, v) * Elems(D0.keys[..j]))
  }

  ghost predicate LeftExited(D0: OrderedMap<Rec>, j: nat, D: OrderedMap<Rec>, pass: LeavePass, v: Viewport)
  {
    && j <= |D0.keys|
    && forall k :: k in D.entries && k in Elems(D0.keys[..j]) ==>
         k in D0.entries && Exited(k, D0.entries[k], D.entries[k], pass, v)
  }

  ghost predicate LeftRest(D0: OrderedMap<Rec>, j: nat, D: OrderedMap<Rec>)
  {
    && j <= |D0.keys|
    && forall k :: k in D.entries && k !in Elems(D0.keys[..j]) ==> k in D0.entries && D.entries[k] == D0.entries[k]
  }

  /** The inline styles of a node. */
  datatype Style = Style(hidden: bool, absolute: bool, top: Option<int>)

  ghost function StyleOf(n: Node): Style
    reads n`hidden, n`absolute, n`styleTop
  {
    Style(n.hidden, n.absolute, n.styleTop)
  }

  /** The styles of the nodes of the records in `m`, by key. */
  ghost function Styles(m: map<Key, Rec>): map<Key, Style>
    reads NodesIn(m)`hidden, NodesIn(m)`absolute, NodesIn(m)`styleTop
  {
    map k | k in m && m[k].node != null :: StyleOf(m[k].node)
  }

  /** The node mounted for key `k`. */
  ghost function NodeAt(m: map<Key, Rec>, k: Key): Node?
    requires k in m
  {
    m[k].node
  }

  /** No two leaving records share a node: React mounts one node per key. */
  ghost predicate NodesDistinct(m: map<Key, Rec>)
  {
    forall k, k' {:trigger NodeAt(m, k), NodeAt(m, k')} :: k in m && k' in m && k != k' ==> NodeAt(m, k) != NodeAt(m, k')
  }

  /** The nodes of the first `j` leaving keys are styled by the pass, the
      others have the styles `S0` they had before it. */
  ghost predicate StyledUpTo(D0: OrderedMap<Rec>, j: nat, D: OrderedMap<Rec>, S0: map<Key, Style>)
    reads NodesIn(D0.entries)`hidden, NodesIn(D0.entries)`absolute, NodesIn(D0.entries)`styleTop
  {
    && D0.Valid() && LeavingMounted(D0.entries) && j <= |D0.keys| && D0.entries.Keys <= S0.Keys
    && (forall i :: 0 <= i < j ==> Styled(D0.entries[D0.keys[i]], D0.keys[i] in D.entries, S0[D0.keys[i]]))
    && (forall i :: j <= i < |D0.keys| ==> StyleOf(D0.entries[D0.keys[i]].node) == S0[D0.keys[i]])
  }

  /** The node of a leaving record after the pass, from its styles `s0`
      before it: a record that stays is taken out of the flow at its sampled
      top and keeps its visibility; a dropped one is hidden and keeps its
      position. */
  ghost predicate Styled(r: Rec, stays: bool, s0: Style)
    reads NodeOf(r)`hidden, NodeOf(r)`absolute, NodeOf(r)`styleTop
  {
    r.node != null && StyleOf(r.node) == Restyle(r, stays, s0)
  }

  /** The style the pass gives the node of leaving record `r`, from the
      style `s0` it had (src/index.js:229-245). */
  function Restyle(r: Rec, stays: bool, s0: Style): Style
  {
    if stays then s0.(absolute := true, top := if r.pos.Some? then Some(r.pos.value.top) else s0.top)
    else s0.(hidden := true)
  }

  /** The styles of all leaving nodes after a pass that leaves `D` of the
      leaving dictionary `D0`, from their styles `S0` before it. */
  function Restyled(D0: OrderedMap<Rec>, D: OrderedMap<Rec>, S0: map<Key, Style>): map<Key, Style>
  {
    map k | k in D0.entries && k in S0 :: Restyle(D0.entries[k], k in D.entries, S0[k])
  }

  /** Once every leaving key has been through the pass, the styles of the
      leaving nodes are `Restyled` of the snapshot. */
  lemma StylesRestyled(D0: OrderedMap<Rec>, D: OrderedMap<Rec>, S0: map<Key, Style>)
    requires StyledUpTo(D0, |D0.keys|, D, S0)
    ensures Styles(D0.entries) == Restyled(D0, D, S0)
  {
    forall k | k in D0.entries
      ensures k in Styles(D0.entries) && Styles(D0.entries)[k] == Restyle(D0.entries[k], k in D.entries, S0[k])
    {
      var i :| 0 <= i < |D0.keys| && D0.keys[i] == k;
      assert Styled(D0.entries[D0.keys[i]], D0.keys[i] in D.entries, S0[D0.keys[i]]);
    }
  }

  /** The number of leave animations a pass has started after the first `j`
      leaving keys. */
  ghost function ExitCount(D0: OrderedMap<Rec>, j: nat, v: Viewport): nat
    requires j <= |D0.keys|
  {
    |Elems(D0.keys[..j]) - Culled(D0.entries, v)|
  }

  /** Some of the first `j` leaving keys has been hidden. */
  ghost predicate CulledSome(D0: OrderedMap<Rec>, j: nat, v: Viewport)
    requires j <= |D0.keys|
  {
    Culled(D0.entries, v) * Elems(D0.keys[..j]) != {}
  }

  /** The `j`-th leaving record is off screen: its node is hidden and its
      key deleted (src/index.js:229-234). */
  method CullAt(D0: OrderedMap<Rec>, j: nat, D: OrderedMap<Rec>, v: Viewport, pass: LeavePass, ghost S0: map<Key, Style>)
    returns (D': OrderedMap<Rec>)
    requires j < |D0.keys| && LeftUpTo(D0, j, D, pass, v) && StyledUpTo(D0, j, D, S0) && NodesDistinct(D0.entries)
    requires D0.keys[j] in Culled(D0.entries, v)
    modifies NodeOf(D0.entries[D0.keys[j]])`hidden
    ensures LeftUpTo(D0, j + 1, D', pass, v) && StyledUpTo(D0, j + 1, D', S0)
    ensures ExitCount(D0, j + 1, v) == ExitCount(D0, j, v) && CulledSome(D0, j + 1, v)
    ensures D0.keys[j] !in D'.entries
    ensures forall k :: k in D'.entries && k != D0.keys[j] ==> k in D.entries && D'.entries[k] == D.entries[k]
  {
    var key := D0.keys[j];
    CullStep(D0, j, D, pass, v);
    D' := D.Delete(key);
    HideAt(D0, j, D, D', S0);
  }

  /** Hides the node of the `j`-th leaving key, whose key is dropped. */
  method HideAt(D0: OrderedMap<Rec>, j: nat, D: OrderedMap<Rec>, D': OrderedMap<Rec>, ghost S0: map<Key, Style>)
    requires j < |D0.keys| && StyledUpTo(D0, j, D, S0) && NodesDistinct(D0.entries)
    requires D'.entries == D.entries - {D0.keys[j]}
    modifies NodeOf(D0.entries[D0.keys[j]])`hidden
    ensures StyledUpTo(D0, j + 1, D', S0)
  {
    var key := D0.keys[j];
    var node := D0.entries[key].node;
    node.hidden := true;
    forall i | 0 <= i < |D0.keys| && i != j
      ensures StyleOf(D0.entries[D0.keys[i]].node) == old(StyleOf(D0.entries[D0.keys[i]].node))
    {
      assert D0.keys[i] != key && NodeAt(D0.entries, D0.keys[i]) != NodeAt(D0.entries, key);
    }
    forall i | 0 <= i < j
      ensures Styled(D0.entries[D0.keys[i]], D0.keys[i] in D'.entries, S0[D0.keys[i]])
    {
      assert D0.keys[i] != key;
      assert old(Styled(D0.entries[D0.keys[i]], D0.keys[i] in D.entries, S0[D0.keys[i]]));
    }
  }

  lemma CullStep(D0: OrderedMap<Rec>, j: nat, D: OrderedMap<Rec>, pass: LeavePass, v: Viewport)
    requires j < |D0.keys| && LeftUpTo(D0, j, D, pass, v)
    requires D0.keys[j] in Culled(D0.entries, v)
    ensures D0.keys[j] in D.entries && D.entries[D0.keys[j]] == D0.entries[D0.keys[j]]
    ensures LeftUpTo(D0, j + 1, D.Delete(D0.keys[j]), pass, v)
    ensures ExitCount(D0, j + 1, v) == ExitCount(D0, j, v) && CulledSome(D0, j + 1, v)
  {
    var key := D0.keys[j];
    OutgoingFacts([], D0, j);
    DropStep(D0.keys, Culled(D0.entries, v), j);
    CullExited(D0, j, D, pass, v);
    CullRest(D0, j, D);
    CullCount(D0, j, v);
  }

  lemma CullExited(D0: OrderedMap<Rec>, j: nat, D: OrderedMap<Rec>, pass: LeavePass, v: Viewport)
    requires j < |D0.keys| && D.Valid() && LeftExited(D0, j, D, pass, v)
    requires Elems(D0.keys[..j + 1]) == Elems(D0.keys[..j]) + {D0.keys[j]}
    ensures LeftExited(D0, j + 1, D.Delete(D0.keys[j]), pass, v)
  {
  }

  lemma CullRest(D0: OrderedMap<Rec>, j: nat, D: OrderedMap<Rec>)
    requires j < |D0.keys| && D.Valid() && LeftRest(D0, j, D)
    requires Elems(D0.keys[..j + 1]) == Elems(D0.keys[..j]) + {D0.keys[j]}
    ensures LeftRest(D0, j + 1, D.Delete(D0.keys[j]))
  {
  }

  lemma CullCount(D0: OrderedMap<Rec>, j: nat, v: Viewport)
    requires j < |D0.keys| && D0.keys[j] in Culled(D0.entries, v)
    requires Elems(D0.keys[..j + 1]) == Elems(D0.keys[..j]) + {D0.keys[j]}
    ensures ExitCount(D0, j + 1, v) == ExitCount(D0, j, v) && CulledSome(D0, j + 1, v)
  {
    assert Elems(D0.keys[..j + 1]) - Culled(D0.entries, v) == Elems(D0.keys[..j]) - Culled(D0.entries, v);
  }

  /** The `j`-th leaving record is on screen: it leaves with an animation
      (src/index.js:236-254). */
  method ExitAt(D0: OrderedMap<Rec>, j: nat, D: OrderedMap<Rec>, v: Viewport, pass: LeavePass, ghost S0: map<Key, Style>)
    returns (D': OrderedMap<Rec>)
    requires j < |D0.keys| && LeftUpTo(D0, j, D, pass, v) && StyledUpTo(D0, j, D, S0) && NodesDistinct(D0.entries)
    requires D0.keys[j] !in Culled(D0.entries, v)
    modifies NodeOf(D0.entries[D0.keys[j]])`absolute, NodeOf(D0.entries[D0.keys[j]])`styleTop, pass`nLeavesLeft
    ensures LeftUpTo(D0, j + 1, D', pass, v) && StyledUpTo(D0, j + 1, D', S0)
    ensures ExitCount(D0, j + 1, v) == ExitCount(D0, j, v) + 1 && (CulledSome(D0, j + 1, v) <==> CulledSome(D0, j, v))
    ensures pass.nLeavesLeft == old(pass.nLeavesLeft) + ExitCount(D0, j + 1, v) - ExitCount(D0, j, v)
    ensures D0.keys[j] in D'.entries ==>
      (var a := D'.entries[D0.keys[j]].animation; a != null && fresh(a) && !a.cancelled)
    ensures forall k :: k in D'.entries && k != D0.keys[j] ==> k in D.entries && D'.entries[k] == D.entries[k]
  {
    var key := D0.keys[j];
    ExitFacts(D0, j, D, pass, v);
    var r' := ExitNode(D0, j, D, v, pass, S0);
    D' := D.Put(key, r');
    ExitStep(D0, j, D, r', pass, v);
    StyledPut(D0, j + 1, D, key, r', S0);
  }

  /** Sends the node of the `j`-th leaving key out of the flow with a leave
      animation. */
  method ExitNode(D0: OrderedMap<Rec>, j: nat, D: OrderedMap<Rec>, v: Viewport, pass: LeavePass, ghost S0: map<Key, Style>)
    returns (r': Rec)
    requires j < |D0.keys| && StyledUpTo(D0, j, D, S0) && NodesDistinct(D0.entries)
    requires D0.keys[j] in D.entries && D0.keys[j] !in Culled(D0.entries, v)
    modifies NodeOf(D0.entries[D0.keys[j]])`absolute, NodeOf(D0.entries[D0.keys[j]])`styleTop, pass`nLeavesLeft
    ensures Exited(D0.keys[j], D0.entries[D0.keys[j]], r', pass, v)
    ensures r'.animation != null && fresh(r'.animation) && !r'.animation.cancelled
    ensures pass.nLeavesLeft == old(pass.nLeavesLeft) + 1
    ensures StyledUpTo(D0, j + 1, D, S0)
  {
    var key := D0.keys[j];
    var r := D0.entries[key];
    var s := LeaveStepOf(r.animation != null, r.animateToTop, r.animateToLeft, r.pos, v);
    var node := r.node;
    TakeNodeOutOfFlow(r);
    var animation := new Animation(node, Leave(LeftOf(r.pos), s.finalX), Some(LeaveHandler(key, node, pass)));
    r' := r.(animateToTop := TopOf(r.pos), animateToLeft := NaN, animation := animation);
    pass.nLeavesLeft := pass.nLeavesLeft + 1;
    forall i | 0 <= i < |D0.keys| && i != j
      ensures StyleOf(D0.entries[D0.keys[i]].node) == old(StyleOf(D0.entries[D0.keys[i]].node))
    {
      assert D0.keys[i] != key && NodeAt(D0.entries, D0.keys[i]) != NodeAt(D0.entries, key);
    }
    forall i | 0 <= i < j
      ensures Styled(D0.entries[D0.keys[i]], D0.keys[i] in D.entries, S0[D0.keys[i]])
    {
      assert D0.keys[i] != key;
      assert old(Styled(D0.entries[D0.keys[i]], D0.keys[i] in D.entries, S0[D0.keys[i]]));
    }
  }

  lemma StyledPut(D0: OrderedMap<Rec>, j: nat, D: OrderedMap<Rec>, key: Key, r': Rec, S0: map<Key, Style>)
    requires StyledUpTo(D0, j, D, S0) && D.Valid() && key in D.entries
    ensures StyledUpTo(D0, j, D.Put(key, r'), S0)
  {
    assert forall k :: k in D.Put(key, r').entries <==> k in D.entries;
  }

  lemma ExitFacts(D0: OrderedMap<Rec>, j: nat, D: OrderedMap<Rec>, pass: LeavePass, v: Viewport)
    requires j < |D0.keys| && LeftUpTo(D0, j, D, pass, v)
    ensures D0.keys[j] in D.entries && D.entries[D0.keys[j]] == D0.entries[D0.keys[j]]
    ensures D0.keys[j] !in Elems(D0.keys[..j])
    ensures Elems(D0.keys[..j + 1]) == Elems(D0.keys[..j]) + {D0.keys[j]}
  {
    OutgoingFacts([], D0, j);
  }

  lemma ExitStep(D0: OrderedMap<Rec>, j: nat, D: OrderedMap<Rec>, r': Rec, pass: LeavePass, v: Viewport)
    requires j < |D0.keys| && LeftUpTo(D0, j, D, pass, v)
    requires D0.keys[j] !in Culled(D0.entries, v)
    requires Exited(D0.keys[j], D0.entries[D0.keys[j]], r', pass, v)
    ensures LeftUpTo(D0, j + 1, D.Put(D0.keys[j], r'), pass, v)
    ensures ExitCount(D0, j + 1, v) == ExitCount(D0, j, v) + 1 && (CulledSome(D0, j + 1, v) <==> CulledSome(D0, j, v))
  {
    var key := D0.keys[j];
    ExitFacts(D0, j, D, pass, v);
    ExitKeys(D0, j, D, r', v);
    ExitExited(D0, j, D, r', pass, v);
    ExitRest(D0, j, D, r');
    ExitCountStep(D0, j, v);
  }

  lemma ExitKeys(D0: OrderedMap<Rec>, j: nat, D: OrderedMap<Rec>, r': Rec, v: Viewport)
    requires j < |D0.keys| && LeftKeys(D0, j, D, v) && D0.keys[j] in D.entries
    requires D0.keys[j] !in Culled(D0.entries, v)
    requires Elems(D0.keys[..j + 1]) == Elems(D0.keys[..j]) + {D0.keys[j]}
    ensures LeftKeys(D0, j + 1, D.Put(D0.keys[j], r'), v)
  {
    assert Culled(D0.entries, v) * Elems(D0.keys[..j + 1]) == Culled(D0.entries, v) * Elems(D0.keys[..j]);
  }

  lemma ExitExited(D0: OrderedMap<Rec>, j: nat, D: OrderedMap<Rec>, r': Rec, pass: LeavePass, v: Viewport)
    requires j < |D0.keys| && D.Valid() && LeftExited(D0, j, D, pass, v) && D0.keys[j] in D0.entries
    requires Exited(D0.keys[j], D0.entries[D0.keys[j]], r', pass, v)
    requires Elems(D0.keys[..j + 1]) == Elems(D0.keys[..j]) + {D0.keys[j]}
    ensures LeftExited(D0, j + 1, D.Put(D0.keys[j], r'), pass, v)
  {
  }

  lemma ExitRest(D0: OrderedMap<Rec>, j: nat, D: OrderedMap<Rec>, r': Rec)
    requires j < |D0.keys| && D.Valid() && LeftRest(D0, j, D)
    requires Elems(D0.keys[..j + 1]) == Elems(D0.keys[..j]) + {D0.keys[j]}
    ensures LeftRest(D0, j + 1, D.Put(D0.keys[j], r'))
  {
  }

  lemma ExitCountStep(D0: OrderedMap<Rec>, j: nat, v: Viewport)
    requires j < |D0.keys| && D0.keys[j] !in Culled(D0.entries, v)
    requires D0.keys[j] !in Elems(D0.keys[..j])
    requires Elems(D0.keys[..j + 1]) == Elems(D0.keys[..j]) + {D0.keys[j]}
    ensures ExitCount(D0, j + 1, v) == ExitCount(D0, j, v) + 1 && (CulledSome(D0, j + 1, v) <==> CulledSome(D0, j, v))
  {
    assert Elems(D0.keys[..j + 1]) - Culled(D0.entries, v) == (Elems(D0.keys[..j]) - Culled(D0.entries, v)) + {D0.keys[j]};
    assert Culled(D0.entries, v) * Elems(D0.keys[..j + 1]) == Culled(D0.entries, v) * Elems(D0.keys[..j]);
  }

  /** Dropping the `j`-th key of `s` when it is in `X`. */
  lemma DropStep(s: seq<Key>, X: set<Key>, j: nat)
    requires j < |s| && s[j] in X
    requires Elems(s[..j + 1]) == Elems(s[..j]) + {s[j]}
    ensures Minus(Minus(s, X * Elems(s[..j])), {s[j]}) == Minus(s, X * Elems(s[..j + 1]))
  {
    var done := X * Elems(s[..j]);
    MinusMinus(s, done, {s[j]});
    assert done + {s[j]} == X * Elems(s[..j + 1]);
  }

  /** The loop over the leaving records (src/index.js:216-255). The planner
      never answers `AlreadyLeaving`, so every record is hidden or sent out. */
  method AnimateLeaves(D0: OrderedMap<Rec>, v: Viewport, pass: LeavePass, ghost S0: map<Key, Style>) returns (D: OrderedMap<Rec>, culled: bool)
    requires D0.Valid() && LeavingMounted(D0.entries) && NodesDistinct(D0.entries) && StyledUpTo(D0, 0, D0, S0)
    modifies NodesIn(D0.entries)`hidden, NodesIn(D0.entries)`absolute, NodesIn(D0.entries)`styleTop, pass`nLeavesLeft
    ensures LeftUpTo(D0, |D0.keys|, D, pass, v) && StyledUpTo(D0, |D0.keys|, D, S0)
    ensures pass.nLeavesLeft == old(pass.nLeavesLeft) + ExitCount(D0, |D0.keys|, v)
    ensures culled <==> CulledSome(D0, |D0.keys|, v)
    ensures D.Valid() && D.entries.Keys <= D0.entries.Keys && (!culled ==> D.keys == D0.keys)
    ensures pass.nLeavesLeft == old(pass.nLeavesLeft) + |D.keys|
  {
    D, culled := D0, false;
    LeavesStart(D0, pass, v);
    var j := 0;
    while j < |D0.keys|
      invariant LeftUpTo(D0, j, D, pass, v) && StyledUpTo(D0, j, D, S0)
      invariant pass.nLeavesLeft == old(pass.nLeavesLeft) + ExitCount(D0, j, v)
      invariant culled <==> CulledSome(D0, j, v)
    {
      var cull;
      D, cull := LeaveAt(D0, j, D, v, pass, S0);
      culled := culled || cull;
      j := j + 1;
    }
    LeavesDone(D0, D, pass, v);
  }

  /** The `j`-th leaving record goes through the pass. */
  method LeaveAt(D0: OrderedMap<Rec>, j: nat, D: OrderedMap<Rec>, v: Viewport, pass: LeavePass, ghost S0: map<Key, Style>)
    returns (D': OrderedMap<Rec>, cull: bool)
    requires j < |D0.keys| && LeftUpTo(D0, j, D, pass, v) && StyledUpTo(D0, j, D, S0) && NodesDistinct(D0.entries)
    modifies NodesIn(D0.entries)`hidden, NodesIn(D0.entries)`absolute, NodesIn(D0.entries)`styleTop, pass`nLeavesLeft
    ensures LeftUpTo(D0, j + 1, D', pass, v) && StyledUpTo(D0, j + 1, D', S0)
    ensures pass.nLeavesLeft == old(pass.nLeavesLeft) + ExitCount(D0, j + 1, v) - ExitCount(D0, j, v)
    ensures CulledSome(D0, j + 1, v) <==> CulledSome(D0, j, v) || cull
    ensures D0.keys[j] in D'.entries ==>
      (var a := D'.entries[D0.keys[j]].animation; a != null && fresh(a) && !a.cancelled)
    ensures forall k :: k in D'.entries && k != D0.keys[j] ==> k in D.entries && D'.entries[k] == D.entries[k]
  {
    // the planner's decision; it is never `AlreadyLeaving`
    var key := D0.keys[j];
    ExitFacts(D0, j, D, pass, v);
    var r := D.entries[key];
    var step := LeaveStepOf(r.animation != null, r.animateToTop, r.animateToLeft, r.pos, v);
    CulledIff(D0.entries, key, v);
    D', cull := LeaveBy(D0, j, D, v, pass, S0, step.Cull?);
  }

  /** Hides or exits the `j`-th leaving record, as `cull` says. */
  method LeaveBy(D0: OrderedMap<Rec>, j: nat, D: OrderedMap<Rec>, v: Viewport, pass: LeavePass, ghost S0: map<Key, Style>, cull: bool)
    returns (D': OrderedMap<Rec>, culled: bool)
    requires j < |D0.keys| && LeftUpTo(D0, j, D, pass, v) && StyledUpTo(D0, j, D, S0) && NodesDistinct(D0.entries)
    requires cull <==> D0.keys[j] in Culled(D0.entries, v)
    modifies NodesIn(D0.entries)`hidden, NodesIn(D0.entries)`absolute, NodesIn(D0.entries)`styleTop, pass`nLeavesLeft
    ensures LeftUpTo(D0, j + 1, D', pass, v) && StyledUpTo(D0, j + 1, D', S0) && culled == cull
    ensures pass.nLeavesLeft == old(pass.nLeavesLeft) + ExitCount(D0, j + 1, v) - ExitCount(D0, j, v)
    ensures CulledSome(D0, j + 1, v) <==> CulledSome(D0, j, v) || cull
    ensures D0.keys[j] in D'.entries ==>
      (var a := D'.entries[D0.keys[j]].animation; a != null && fresh(a) && !a.cancelled)
    ensures forall k :: k in D'.entries && k != D0.keys[j] ==> k in D.entries && D'.entries[k] == D.entries[k]
  {
    culled := cull;
    if cull {
      D' := CullAt(D0, j, D, v, pass, S0);
    } else {
      D' := ExitAt(D0, j, D, v, pass, S0);
    }
  }

  /** After the loop the leaving dictionary keeps exactly the keys that
      were not hidden, in their order, and the pass has started one leave
      animation per key kept; a pass that hides nothing keeps the list. */
  lemma LeavesDone(D0: OrderedMap<Rec>, D: OrderedMap<Rec>, pass: LeavePass, v: Viewport)
    requires LeftUpTo(D0, |D0.keys|, D, pass, v)
    ensures D.keys == Minus(D0.keys, Culled(D0.entries, v))
    ensures |D.keys| == ExitCount(D0, |D0.keys|, v)
    ensures D.entries.Keys <= D0.entries.Keys
    ensures !CulledSome(D0, |D0.keys|, v) ==> D.keys == D0.keys
  {
    var s, X := D0.keys, Culled(D0.entries, v);
    assert s[..|s|] == s;
    MinusSame(s, X * Elems(s), X);
    MinusCard(s, X);
    if !CulledSome(D0, |s|, v) {
      MinusAbsent(s, X * Elems(s));
    }
  }

  /** Removing keys from a list without repetitions leaves as many keys as
      the set difference has. */
  lemma MinusCard(s: seq<Key>, X: set<Key>)
    requires Distinct(s)
    ensures |Minus(s, X)| == |Elems(s) - X|
  {
    MinusDistinct(s, X);
    DistinctCard(Minus(s, X));
    assert Elems(Minus(s, X)) == Elems(s) - X;
  }

  lemma CulledIff(D: map<Key, Rec>, k: Key, v: Viewport)
    requires k in D
    ensures k in Culled(D, v) <==> D[k].pos.Some? && Offscreen(D[k].pos.value, v)
  {
  }

  lemma LeavesStart(D0: OrderedMap<Rec>, pass: LeavePass, v: Viewport)
    requires D0.Valid() && LeavingMounted(D0.entries)
    ensures LeftUpTo(D0, 0, D0, pass, v) && ExitCount(D0, 0, v) == 0 && !CulledSome(D0, 0, v)
  {
    var E, X := Elems(D0.keys[..0]), Culled(D0.entries, v);
    assert E == {};
    assert X * E == {} && E - X == {};
    MinusAbsent(D0.keys, {});
  }

  /** The two loops of a pass (src/index.js:170-255): the current records
      animated into place, the leaving ones hidden or sent out, one pending
      leave counted per leaving record kept; the dictionaries stay apart and
      the leaving one keeps its order when none is hidden. */
  method AnimatePass(C: OrderedMap<Rec>, D0: OrderedMap<Rec>, frame: Box, layout: Layout, v: Viewport, pass: LeavePass, ghost S0: map<Key, Style>)
    returns (nc: OrderedMap<Rec>, D: OrderedMap<Rec>, culled: bool)
    requires Separate(C, D0) && LeavingMounted(D0.entries) && NodesDistinct(D0.entries) && StyledUpTo(D0, 0, D0, S0)
    modifies AnimationsIn(C.entries)`cancelled
    modifies NodesIn(D0.entries)`hidden, NodesIn(D0.entries)`absolute, NodesIn(D0.entries)`styleTop, pass`nLeavesLeft
    ensures Separate(nc, D) && nc.keys == C.keys && (!culled ==> D.keys == D0.keys)
    ensures MovedUpTo(C, |C.keys|, nc, frame, layout, v) && RetiredUpTo(C, |C.keys|, nc)
    ensures StartedFresh(C, |C.keys|, nc) && OnlyDropped(C, |C.keys|, nc)
    ensures LeftUpTo(D0, |D0.keys|, D, pass, v) && StyledUpTo(D0, |D0.keys|, D, S0)
    ensures pass.nLeavesLeft == old(pass.nLeavesLeft) + |D.keys|
  {
    nc := AnimateCurrent(C, frame, layout, v);
    D, culled := AnimateLeaves(D0, v, pass, S0);
    assert OnlyDropped(C, |C.keys|, nc);
    PassKeeps(C, nc, D0, D);
  }

  /** A pass keeps the two dictionaries apart: the current one keeps its
      keys and the leaving one only loses some. */
  lemma PassKeeps(C: OrderedMap<Rec>, nc: OrderedMap<Rec>, D0: OrderedMap<Rec>, D: OrderedMap<Rec>)
    requires Separate(C, D0) && nc.Valid() && nc.keys == C.keys
    requires D.Valid() && D.entries.Keys <= D0.entries.Keys
    ensures Separate(nc, D)
  {
  }
}
