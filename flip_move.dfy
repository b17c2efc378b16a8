/**
 The `FlipMove` component of src/index.js: a list that animates its children
 with the FLIP technique (sample every box, let the browser lay the new list
 out, then animate each node from where it was to where it is).

 The component keeps one record per child key in two insertion-ordered
 dictionaries: the children of the current list (`_children`) and the
 children leaving it (`_deleting`). It renders the current children followed
 by the leaving ones. When new props arrive, `ComponentWillReceiveProps`
 diffs the new key list against both dictionaries and samples every box;
 after the browser has laid out the new render, `ComponentDidUpdate` starts
 one transform animation per record that needs one. Leave animations report
 back through `OnFinish` and `OnCancel`, which the browser calls.

 The browser is abstract: the container's box, the layout of the nodes, the
 scroll offset and the window height are parameters of the lifecycle
 methods; React's `setState` is the assignment of `rendered`.
 */
module Flip {
  import opened Common
  import opened Geometry
  import opened KeyedMap
  import opened FlipPlan
  import opened FlipDom
  import opened Diff
  import opened Reconcile
  import opened AnimationPass

  /** `props.children`: an array of elements, which the component compares
      by identity; of the elements only their keys matter here. */
  class ChildList {
    const keys: seq<Key>

    constructor (keys: seq<Key>)
      ensures this.keys == keys
    {
      this.keys := keys;
    }
  }

  /** `_.mapValues(_.keyBy(children, 'key'), _createElement)`: a new record
      for every key of the list, in list order. */
  function Blank(keys: seq<Key>): (m: OrderedMap<Rec>)
    requires Distinct(keys)
    ensures m.Valid() && m.keys == keys
    ensures forall k :: k in m.entries ==> m.entries[k] == CreateElement()
  {
    if keys == [] then Empty()
    else
      var init, last := keys[..|keys| - 1], keys[|keys| - 1];
      DistinctInit(keys);
      assert keys == init + [last];
      Blank(init).Put(last, CreateElement())
  }

  /** The viewport of a pass (src/index.js:153-156): the lowest visible
      container coordinate is the window height below the container's top,
      moved down by the scroll offset. */
  function PassViewport(frame: Box, scrollTop: int, innerHeight: int, width: int): (v: Viewport)
    ensures v.scrollTop == scrollTop && v.width == width
    ensures v.maxHeight - v.scrollTop == innerHeight - frame.top
  {
    Viewport(scrollTop, innerHeight - frame.top + scrollTop, width)
  }

  /** The list React renders, the current keys followed by the leaving
      ones, never holds a key twice, and holds every key of both. */
  lemma RenderedDistinct(C: OrderedMap<Rec>, D: OrderedMap<Rec>)
    requires Separate(C, D)
    ensures Distinct(C.keys + D.keys)
    ensures Elems(C.keys + D.keys) == C.entries.Keys + D.entries.Keys
  {
    var s := C.keys + D.keys;
    forall i, j | 0 <= i < j < |s|
      ensures s[i] != s[j]
    {
      if j < |C.keys| {
      } else if i >= |C.keys| {
        assert s[i] == D.keys[i - |C.keys|] && s[j] == D.keys[j - |C.keys|];
      } else {
        assert s[i] in C.entries && s[j] in D.entries;
      }
    }
  }

  class FlipMove {
    /** `this.props.children` */
    var props: ChildList
    /** `_children`; `None` is `null`, before the first list is known */
    var children: Option<OrderedMap<Rec>>
    /** `_deleting` */
    var deleting: OrderedMap<Rec>
    /** the keys of the elements in `state.children`, in render order */
    var rendered: seq<Key>
    /** `_hasNewProps` */
    var hasNewProps: bool
    /** `_updateToken`; each new `Symbol()` is a number larger than all before */
    var updateToken: nat
    /** the container's `style.minHeight` in pixels; `None` is `''` */
    var minHeight: Option<int>

    /** `_children`, empty while it is `null` */
    function Current(): OrderedMap<Rec>
      reads this
    {
      if children.Some? then children.value else Empty()
    }

    /** The component's invariant: no key is both current and leaving, the
        leaving dictionary is empty until the first list is known, and React
        renders the current children, then the leaving ones. */
    ghost predicate Valid()
      reads this
    {
      && (children.None? ==> deleting.keys == [] && !hasNewProps)
      && Separate(Current(), deleting)
      && rendered == Current().keys + deleting.keys
    }

    /** `constructor` (src/index.js:40-47). */
    constructor (props: ChildList)
      ensures Valid() && this.props == props
      ensures children.None? && deleting == Empty() && rendered == []
      ensures !hasNewProps && updateToken == 0 && minHeight.None?
    {
      this.props := props;
      children := None;
      deleting := Empty();
      rendered := [];
      hasNewProps := false;
      updateToken := 0;
      minHeight := None;
    }

    /** `_setChildren` (src/index.js:143-146): the leaving children are
        rendered after the current ones. */
    method SetChildren()
      modifies this`rendered
      ensures rendered == Current().keys + deleting.keys
    {
      rendered := Current().keys + deleting.keys;
    }

    /** `_initComponent` (src/index.js:74-77): a new record per key, and
        only those rendered. */
    method InitComponent(keys: seq<Key>)
      requires Distinct(keys)
      modifies this`children, this`rendered
      ensures children == Some(Blank(keys)) && rendered == keys
    {
      children := Some(Blank(keys));
      rendered := keys;
    }

    /** `componentWillMount` (src/index.js:83-87), which React calls once,
        before any new props. */
    method ComponentWillMount()
      requires Valid() && children.None? && Distinct(props.keys)
      modifies this`children, this`rendered
      ensures Valid() && children == Some(Blank(props.keys)) && rendered == props.keys
    {
      InitComponent(props.keys);
    }

    /** The `ref` callback of the element created for `key`
        (src/index.js:65-69): once React has mounted the element, the record
        held for the key gets its node. A `null` node changes nothing. */
    method AttachNode(key: Key, node: Node?)
      requires Valid()
      modifies this`children, this`deleting
      ensures Valid()
      ensures node != null && key in old(Current()).entries ==>
        children == Some(old(Current()).Put(key, old(Current()).entries[key].(node := node))) && deleting == old(deleting)
      ensures node != null && key in old(deleting).entries ==>
        deleting == old(deleting).Put(key, old(deleting).entries[key].(node := node)) && children == old(children)
      ensures node == null || (key !in old(Current()).entries && key !in old(deleting).entries) ==>
        children == old(children) && deleting == old(deleting)
    {
      if node == null {
        return;
      }
      if key in Current().entries {
        var C := Current();
        var C' := C.Put(key, C.entries[key].(node := node));
        assert C'.keys == C.keys;
        children := Some(C');
      } else if key in deleting.entries {
        var D' := deleting.Put(key, deleting.entries[key].(node := node));
        assert D'.keys == deleting.keys;
        deleting := D';
      }
    }

    /** `componentWillReceiveProps` (src/index.js:89-141). The same children
        array changes nothing. Otherwise the first list initialises the
        component; a later one is diffed against both dictionaries (see
        `Diff.Reconciled`), the revived nodes return to the flow, and the
        container's height is pinned to the visible height until the leaves
        are over. */
    method ComponentWillReceiveProps(next: ChildList, frame: Box, layout: Layout, scrollTop: int, innerHeight: int)
      requires Valid() && Distinct(next.keys)
      requires RevivedMounted(next.keys, Current(), deleting)
      modifies this
      modifies AnimationsIn(deleting.entries)`cancelled, NodesIn(deleting.entries)`absolute, NodesIn(deleting.entries)`styleTop
      ensures Valid() && props == next
      ensures old(props) == next ==> unchanged(this)
      ensures old(props) == next ==>
        unchanged(AnimationsIn(old(deleting).entries)) && unchanged(NodesIn(old(deleting).entries))
      ensures old(props) != next ==>
        && hasNewProps && updateToken == old(updateToken) + 1
        && minHeight == Some(scrollTop + innerHeight)
      ensures old(props) != next && old(children).None? ==>
        children == Some(Blank(next.keys)) && deleting == old(deleting)
      ensures old(props) != next && old(children).Some? ==>
        && children.Some?
        && Reconciled(next.keys, old(children.value), old(deleting), children.value, deleting, frame, layout)
        && RevivedInFlow(next.keys, old(children.value), old(deleting))
        && OnlyRevived(next.keys, |next.keys|, old(children.value), old(deleting))
    {
      if props == next {
        return;
      }
      if children.None? {
        ReceiveFirst(next, scrollTop, innerHeight);
      } else {
        var nc, D := ReceiveLater(next, children.value, deleting, frame, layout, scrollTop, innerHeight);
      }
    }

    /** New props before the first list is known (src/index.js:96-100,
        138-140): the list initialises the component. */
    method ReceiveFirst(next: ChildList, scrollTop: int, innerHeight: int)
      requires Valid() && children.None? && Distinct(next.keys)
      modifies this
      ensures Valid() && props == next && hasNewProps && updateToken == old(updateToken) + 1
      ensures minHeight == Some(scrollTop + innerHeight)
      ensures children == Some(Blank(next.keys)) && deleting == old(deleting)
    {
      hasNewProps := true;
      InitComponent(next.keys);
      updateToken, minHeight, props := updateToken + 1, Some(scrollTop + innerHeight), next;
    }

    /** New props once the list is known (src/index.js:96-97, 101-140): the
        diff of the new list against both dictionaries, with the new current
        dictionary `nc` and leaving one `D`, and the container's height
        pinned. */
    method ReceiveLater(next: ChildList, C: OrderedMap<Rec>, D0: OrderedMap<Rec>,
                        frame: Box, layout: Layout, scrollTop: int, innerHeight: int)
      returns (nc: OrderedMap<Rec>, D: OrderedMap<Rec>)
      requires children == Some(C) && deleting == D0 && Separate(C, D0) && Distinct(next.keys)
      requires RevivedMounted(next.keys, C, D0)
      modifies this`children, this`deleting, this`rendered, this`hasNewProps, this`updateToken, this`minHeight, this`props
      modifies AnimationsIn(D0.entries)`cancelled, NodesIn(D0.entries)`absolute, NodesIn(D0.entries)`styleTop
      ensures children == Some(nc) && deleting == D && rendered == nc.keys + D.keys
      ensures Reconciled(next.keys, C, D0, nc, D, frame, layout)
      ensures RevivedInFlow(next.keys, C, D0) && OnlyRevived(next.keys, |next.keys|, C, D0)
      ensures props == next && hasNewProps && updateToken == old(updateToken) + 1
      ensures minHeight == Some(scrollTop + innerHeight)
    {
      nc, D := KeyedDiff(next.keys, C, D0, frame, layout);
      assert OnlyRevived(next.keys, |next.keys|, C, D0);
      TakeProps(next, nc, D, scrollTop + innerHeight);
    }

    /** The state once new props are diffed (src/index.js:126-140): both
        dictionaries and their rendering, the props, a new pass pending
        under a new token, and the container's height pinned. */
    method TakeProps(next: ChildList, nc: OrderedMap<Rec>, D: OrderedMap<Rec>, height: int)
      modifies this`children, this`deleting, this`rendered, this`hasNewProps, this`updateToken, this`minHeight, this`props
      ensures children == Some(nc) && deleting == D && rendered == nc.keys + D.keys
      ensures props == next && hasNewProps && updateToken == old(updateToken) + 1
      ensures minHeight == Some(height)
    {
      children, deleting := Some(nc), D;
      SetChildren();
      hasNewProps, updateToken, minHeight, props := true, updateToken + 1, Some(height), next;
    }

    /** `leaveAnimationOver` of the pass `pass` (src/index.js:160-168): the
        callback of a superseded pass does nothing; otherwise one leave
        fewer is pending, and once none is the container's height is
        released. */
    method LeaveAnimationOver(pass: LeavePass)
      modifies pass`nLeavesLeft, this`minHeight
      ensures pass.token != updateToken ==>
        pass.nLeavesLeft == old(pass.nLeavesLeft) && minHeight == old(minHeight)
      ensures pass.token == updateToken ==>
        && pass.nLeavesLeft == old(pass.nLeavesLeft) - 1
        && minHeight == if pass.nLeavesLeft <= 0 then None else old(minHeight)
    {
      if updateToken != pass.token {
        return;
      }
      pass.nLeavesLeft := pass.nLeavesLeft - 1;
      if pass.nLeavesLeft <= 0 {
        minHeight := None;
      }
    }

    /** `componentDidUpdate` (src/index.js:148-264). Without new props it
        does nothing. Otherwise it runs one pass under a new `LeavePass`:
        every current record is animated from its sampled box to its laid-out
        one (`AnimationPass.Moved`), every leaving record is hidden when off
        screen and sent out with a leave animation otherwise
        (`AnimationPass.LeftUpTo`); the pass counts one pending leave per
        leaving child kept, and releases the container's height at once when
        there is none. */
    method ComponentDidUpdate(frame: Box, layout: Layout, scrollTop: int, innerHeight: int, width: int)
      returns (pass: LeavePass?)
      requires Valid() && LeavingMounted(deleting.entries) && NodesDistinct(deleting.entries)
      modifies this`children, this`deleting, this`rendered, this`hasNewProps, this`minHeight
      modifies AnimationsIn(Current().entries)`cancelled
      modifies NodesIn(deleting.entries)`hidden, NodesIn(deleting.entries)`absolute, NodesIn(deleting.entries)`styleTop
      ensures Valid() && !hasNewProps
      ensures !old(hasNewProps) ==> pass == null && unchanged(this)
      ensures !old(hasNewProps) ==>
        unchanged(AnimationsIn(old(Current()).entries)) && unchanged(NodesIn(old(deleting).entries))
      ensures old(hasNewProps) ==>
        var v := PassViewport(frame, scrollTop, innerHeight, width);
        && pass != null && fresh(pass) && pass.token == updateToken
        && MovedUpTo(old(Current()), |old(Current()).keys|, Current(), frame, layout, v)
        && LeftUpTo(old(deleting), |old(deleting).keys|, deleting, pass, v)
        && StartedFresh(old(Current()), |old(Current()).keys|, Current())
        && pass.nLeavesLeft == (if deleting.keys == [] then -1 else |deleting.keys|)
        && minHeight == if deleting.keys == [] then None else old(minHeight)
    {
      if !hasNewProps {
        return null;
      }
      pass := RunPass(children.value, deleting, frame, layout, PassViewport(frame, scrollTop, innerHeight, width));
    }

    /** A pass under the current token (src/index.js:150-258), over the
        current dictionary `C` and the leaving one `D0`. */
    method RunPass(C: OrderedMap<Rec>, D0: OrderedMap<Rec>, frame: Box, layout: Layout, v: Viewport)
      returns (pass: LeavePass)
      requires children == Some(C) && deleting == D0 && Separate(C, D0) && LeavingMounted(D0.entries)
      requires rendered == C.keys + D0.keys && NodesDistinct(D0.entries)
      modifies this`children, this`deleting, this`rendered, this`hasNewProps, this`minHeight
      modifies AnimationsIn(C.entries)`cancelled
      modifies NodesIn(D0.entries)`hidden, NodesIn(D0.entries)`absolute, NodesIn(D0.entries)`styleTop
      ensures children.Some? && Separate(children.value, deleting) && !hasNewProps
      ensures rendered == children.value.keys + deleting.keys
      ensures fresh(pass) && pass.token == updateToken
      ensures MovedUpTo(C, |C.keys|, children.value, frame, layout, v)
      ensures LeftUpTo(D0, |D0.keys|, deleting, pass, v)
      ensures StartedFresh(C, |C.keys|, children.value)
      ensures pass.nLeavesLeft == (if deleting.keys == [] then -1 else |deleting.keys|)
      ensures minHeight == if deleting.keys == [] then None else old(minHeight)
    {
      pass := new LeavePass(updateToken);
      ghost var S0 := Styles(D0.entries);
      assert StyledUpTo(D0, 0, D0, S0);
      var nc, D, culled := AnimatePass(C, D0, frame, layout, v, pass, S0);
      EndPass(nc, D, culled, pass);
    }

    /** The end of a pass (src/index.js:256-263): the dictionaries it left,
        the re-render when it hid some leaving record, the pass over at once
        when it started no leave, and the new props consumed. */
    method EndPass(nc: OrderedMap<Rec>, D: OrderedMap<Rec>, culled: bool, pass: LeavePass)
      modifies this`children, this`deleting, this`rendered, this`hasNewProps, this`minHeight, pass`nLeavesLeft
      ensures children == Some(nc) && deleting == D && !hasNewProps
      ensures rendered == if culled then nc.keys + D.keys else old(rendered)
      ensures old(pass.nLeavesLeft) != 0 ==> pass.nLeavesLeft == old(pass.nLeavesLeft) && minHeight == old(minHeight)
      ensures old(pass.nLeavesLeft) == 0 && pass.token == updateToken ==> pass.nLeavesLeft == -1 && minHeight == None
    {
      children, deleting := Some(nc), D;
      if culled {
        SetChildren();
      }
      if pass.nLeavesLeft == 0 {
        LeaveAnimationOver(pass);
      }
      hasNewProps := false;
    }

    /** The `onfinish` callback of a leave animation (src/index.js:247-252):
        hide the node, drop its key from the leaving children, re-render,
        and count the leave as over. While the pass is current and counts
        one leave per leaving child, it goes on doing so, and the container's
        height is released with the last one. */
    method OnFinish(animation: Animation)
      requires Valid() && animation.handlers.Some?
      modifies animation.handlers.value.node`hidden, animation.handlers.value.pass`nLeavesLeft
      modifies this`deleting, this`rendered, this`minHeight
      ensures Valid()
      ensures var h := animation.handlers.value;
        && h.node.hidden
        && deleting == old(deleting).Delete(h.key)
      ensures var p := animation.handlers.value.pass;
        if p.token == updateToken then
          p.nLeavesLeft == old(p.nLeavesLeft) - 1 && minHeight == (if p.nLeavesLeft <= 0 then None else old(minHeight))
        else
          p.nLeavesLeft == old(p.nLeavesLeft) && minHeight == old(minHeight)
      ensures var h := animation.handlers.value;
        old(h.pass.token == updateToken && h.pass.nLeavesLeft == |deleting.keys| && h.key in deleting.entries) ==>
          h.pass.nLeavesLeft == |deleting.keys| && minHeight == if deleting.keys == [] then None else old(minHeight)
    {
      var h := animation.handlers.value;
      h.node.hidden := true;
      DropLeaving(h.key);
      LeaveAnimationOver(h.pass);
    }

    /** `delete this._deleting[key]` and the re-render that follows it
        (src/index.js:249-250). */
    method DropLeaving(key: Key)
      requires Valid()
      modifies this`deleting, this`rendered
      ensures Valid() && deleting == old(deleting).Delete(key)
    {
      deleting := deleting.Delete(key);
      SetChildren();
    }

    /** The `oncancel` callback of a leave animation (src/index.js:254): the
        leave is over. */
    method OnCancel(animation: Animation)
      requires animation.handlers.Some?
      modifies animation.handlers.value.pass`nLeavesLeft, this`minHeight
      ensures var p := animation.handlers.value.pass;
        if p.token == updateToken then
          p.nLeavesLeft == old(p.nLeavesLeft) - 1 && minHeight == (if p.nLeavesLeft <= 0 then None else old(minHeight))
        else
          p.nLeavesLeft == old(p.nLeavesLeft) && minHeight == old(minHeight)
    {
      LeaveAnimationOver(animation.handlers.value.pass);
    }
  }
}
