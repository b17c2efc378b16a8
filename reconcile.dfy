/**
 The two loops of the keyed diff in `componentWillReceiveProps`
 (src/index.js:102-133), over the records of the current and leaving
 dictionaries. The first walks the new list of keys; a leaving record it
 takes back is revived in the DOM (its animation cancelled, its node
 returned to the flow). The second walks the old current dictionary and moves
 the records the new list lacks to the leaving one.
 */
module Reconcile {
  import opened Common
  import opened Geometry
  import opened KeyedMap
  import opened FlipDom
  import opened Diff

  /** The nodes of the records in `m`. */
  ghost function NodesIn(m: map<Key, Rec>): set<Node>
  {
    set k | k in m && m[k].node != null :: m[k].node
  }

  /** The animations of the records in `m`. */
  ghost function AnimationsIn(m: map<Key, Rec>): set<Animation>
  {
    set k | k in m && m[k].animation != null :: m[k].animation
  }

  /** A revived record in the DOM: its node back in the flow and its
      animation cancelled. */
  ghost predicate InFlow(r: Rec)
    reads NodeOf(r)`absolute, NodeOf(r)`styleTop, AnimationOf(r)`cancelled
  {
    && r.node != null && !r.node.absolute && r.node.styleTop == None
    && (r.animation != null ==> r.animation.cancelled)
  }

  /** `k` is a key of the new list that was leaving: the diff revives it. */
  ghost predicate Revives(C: OrderedMap<Rec>, D0: OrderedMap<Rec>, k: Key)
  {
    k !in C.entries && k in D0.entries
  }

  /** Every record the diff revives has a node (`_returnNodeToFlow` writes
      its style). */
  ghost predicate RevivedMounted(keys: seq<Key>, C: OrderedMap<Rec>, D0: OrderedMap<Rec>)
  {
    forall k :: k in keys && Revives(C, D0, k) ==> D0.entries[k].node != null
  }

  /** The records revived among the first `i` keys are in the flow. */
  ghost predicate RevivedUpTo(keys: seq<Key>, i: nat, C: OrderedMap<Rec>, D0: OrderedMap<Rec>)
    requires i <= |keys|
    reads NodesIn(D0.entries)`absolute, NodesIn(D0.entries)`styleTop, AnimationsIn(D0.entries)`cancelled
  {
    forall j :: 0 <= j < i && Revives(C, D0, keys[j]) ==> InFlow(D0.entries[keys[j]])
  }

  /** The records the diff revived are in the flow. */
  ghost predicate RevivedInFlow(keys: seq<Key>, C: OrderedMap<Rec>, D0: OrderedMap<Rec>)
    reads NodesIn(D0.entries)`absolute, NodesIn(D0.entries)`styleTop, AnimationsIn(D0.entries)`cancelled
  {
    forall k :: k in keys && Revives(C, D0, k) ==> InFlow(D0.entries[k])
  }

  /** The nodes of the records revived among the first `i` keys. */
  ghost function RevivedNodes(keys: seq<Key>, i: nat, C: OrderedMap<Rec>, D0: OrderedMap<Rec>): set<Node>
    requires i <= |keys|
  {
    set j | 0 <= j < i && Revives(C, D0, keys[j]) && D0.entries[keys[j]].node != null :: D0.entries[keys[j]].node
  }

  /** The animations of the records revived among the first `i` keys. */
  ghost function RevivedAnimations(keys: seq<Key>, i: nat, C: OrderedMap<Rec>, D0: OrderedMap<Rec>): set<Animation>
    requires i <= |keys|
  {
    set j | 0 <= j < i && Revives(C, D0, keys[j]) && D0.entries[keys[j]].animation != null :: D0.entries[keys[j]].animation
  }

  /** The diff has touched no node and no animation of a leaving record but
      those of the records it revived among the first `i` keys. */
  twostate predicate OnlyRevived(keys: seq<Key>, i: nat, C: OrderedMap<Rec>, D0: OrderedMap<Rec>)
    requires i <= |keys|
    reads NodesIn(D0.entries), AnimationsIn(D0.entries)
  {
    && (forall n :: n in NodesIn(D0.entries) && n !in RevivedNodes(keys, i, C, D0) ==>
          n.absolute == old(n.absolute) && n.styleTop == old(n.styleTop))
    && (forall a :: a in AnimationsIn(D0.entries) && a !in RevivedAnimations(keys, i, C, D0) ==>
          a.cancelled == old(a.cancelled))
  }

  /** One key of the new list (src/index.js:106-125). */
  method IncomingStep(keys: seq<Key>, i: nat, C: OrderedMap<Rec>, D0: OrderedMap<Rec>,
                      nc: OrderedMap<Rec>, D: OrderedMap<Rec>, frame: Box, layout: Layout)
    returns (nc': OrderedMap<Rec>, D': OrderedMap<Rec>)
    requires Distinct(keys) && Separate(C, D0) && i < |keys|
    requires IncomingAt(keys, i, C, D0, nc, D, frame, layout)
    requires RevivedMounted(keys, C, D0) && RevivedUpTo(keys, i, C, D0)
    modifies AnimationsIn(D0.entries)`cancelled, NodesIn(D0.entries)`absolute, NodesIn(D0.entries)`styleTop
    ensures IncomingAt(keys, i + 1, C, D0, nc', D', frame, layout)
    ensures RevivedUpTo(keys, i + 1, C, D0) && OnlyRevived(keys, i + 1, C, D0)
  {
    var key := keys[i];
    if key in C.entries {
      nc', D' := KeepAt(keys, i, C, D0, nc, D, frame, layout);
    } else if key in D.entries {
      nc', D' := ReviveStep(keys, i, C, D0, nc, D, frame, layout);
    } else {
      nc', D' := CreateAt(keys, i, C, D0, nc, D, frame, layout);
    }
  }

  /** A current key keeps its record, re-sampled (src/index.js:107-113). */
  method KeepAt(keys: seq<Key>, i: nat, C: OrderedMap<Rec>, D0: OrderedMap<Rec>,
                nc: OrderedMap<Rec>, D: OrderedMap<Rec>, frame: Box, layout: Layout)
    returns (nc': OrderedMap<Rec>, D': OrderedMap<Rec>)
    requires Distinct(keys) && Separate(C, D0) && i < |keys| && keys[i] in C.entries
    requires IncomingAt(keys, i, C, D0, nc, D, frame, layout) && RevivedUpTo(keys, i, C, D0)
    ensures IncomingAt(keys, i + 1, C, D0, nc', D', frame, layout)
    ensures RevivedUpTo(keys, i + 1, C, D0) && OnlyRevived(keys, i + 1, C, D0)
  {
    var key := keys[i];
    IncomingKeep(keys, i, C, D0, nc, D, frame, layout);
    nc', D' := nc.Put(key, SetBoundingRect(C.entries[key], frame, layout)), D;
    RevivedNext(keys, i, C, D0);
  }

  /** A leaving key is revived and stops leaving (src/index.js:115-121). */
  method ReviveStep(keys: seq<Key>, i: nat, C: OrderedMap<Rec>, D0: OrderedMap<Rec>,
                    nc: OrderedMap<Rec>, D: OrderedMap<Rec>, frame: Box, layout: Layout)
    returns (nc': OrderedMap<Rec>, D': OrderedMap<Rec>)
    requires Distinct(keys) && i < |keys| && keys[i] !in C.entries && keys[i] in D.entries
    requires IncomingAt(keys, i, C, D0, nc, D, frame, layout)
    requires RevivedMounted(keys, C, D0) && RevivedUpTo(keys, i, C, D0)
    modifies AnimationsIn(D0.entries)`cancelled, NodesIn(D0.entries)`absolute, NodesIn(D0.entries)`styleTop
    ensures IncomingAt(keys, i + 1, C, D0, nc', D', frame, layout)
    ensures RevivedUpTo(keys, i + 1, C, D0) && OnlyRevived(keys, i + 1, C, D0)
  {
    var key := keys[i];
    IncomingRevive(keys, i, C, D0, nc, D, frame, layout);
    var r' := ReviveAt(keys, i, C, D0, frame, layout);
    nc', D' := nc.Put(key, r'), D.Delete(key);
  }

  /** A key in neither dictionary gets a new record (src/index.js:123-125). */
  method CreateAt(keys: seq<Key>, i: nat, C: OrderedMap<Rec>, D0: OrderedMap<Rec>,
                  nc: OrderedMap<Rec>, D: OrderedMap<Rec>, frame: Box, layout: Layout)
    returns (nc': OrderedMap<Rec>, D': OrderedMap<Rec>)
    requires Distinct(keys) && i < |keys| && keys[i] !in C.entries && keys[i] !in D.entries
    requires IncomingAt(keys, i, C, D0, nc, D, frame, layout) && RevivedUpTo(keys, i, C, D0)
    ensures IncomingAt(keys, i + 1, C, D0, nc', D', frame, layout)
    ensures RevivedUpTo(keys, i + 1, C, D0) && OnlyRevived(keys, i + 1, C, D0)
  {
    var key := keys[i];
    IncomingCreate(keys, i, C, D0, nc, D, frame, layout);
    nc', D' := nc.Put(key, CreateElement()), D;
    RevivedNext(keys, i, C, D0);
  }

  /** A key that is not revived adds nothing to revive. */
  lemma RevivedNext(keys: seq<Key>, i: nat, C: OrderedMap<Rec>, D0: OrderedMap<Rec>)
    requires i < |keys| && !Revives(C, D0, keys[i]) && RevivedUpTo(keys, i, C, D0)
    ensures RevivedUpTo(keys, i + 1, C, D0)
  {
  }

  /** Revives the record of the `i`-th key. Every revive writes the same
      styles and only cancels animations, so the records revived before stay
      in the flow. */
  method ReviveAt(keys: seq<Key>, i: nat, C: OrderedMap<Rec>, D0: OrderedMap<Rec>, frame: Box, layout: Layout)
    returns (r': Rec)
    requires i < |keys| && Revives(C, D0, keys[i]) && D0.entries[keys[i]].node != null
    requires RevivedUpTo(keys, i, C, D0)
    modifies AnimationsIn(D0.entries)`cancelled, NodesIn(D0.entries)`absolute, NodesIn(D0.entries)`styleTop
    ensures r' == Revived(D0.entries[keys[i]], frame, layout)
    ensures RevivedUpTo(keys, i + 1, C, D0)
    ensures OnlyRevived(keys, i + 1, C, D0)
  {
    var r := D0.entries[keys[i]];
    assert r.node in RevivedNodes(keys, i + 1, C, D0);
    assert r.animation != null ==> r.animation in RevivedAnimations(keys, i + 1, C, D0);
    r' := Revive(r, frame, layout);
    forall j | 0 <= j < i + 1 && Revives(C, D0, keys[j])
      ensures InFlow(D0.entries[keys[j]])
    {
      if j < i {
        assert old(InFlow(D0.entries[keys[j]]));
      }
    }
  }

  /** The first loop (src/index.js:105-126). */
  method DiffIncoming(keys: seq<Key>, C: OrderedMap<Rec>, D0: OrderedMap<Rec>, frame: Box, layout: Layout)
    returns (nc: OrderedMap<Rec>, D: OrderedMap<Rec>)
    requires Distinct(keys) && Separate(C, D0) && RevivedMounted(keys, C, D0)
    modifies AnimationsIn(D0.entries)`cancelled, NodesIn(D0.entries)`absolute, NodesIn(D0.entries)`styleTop
    ensures IncomingAt(keys, |keys|, C, D0, nc, D, frame, layout)
    ensures RevivedInFlow(keys, C, D0) && OnlyRevived(keys, |keys|, C, D0)
  {
    nc, D := Empty(), D0;
    IncomingStart(keys, C, D0, frame, layout);
    var i := 0;
    while i < |keys|
      invariant i <= |keys|
      invariant IncomingAt(keys, i, C, D0, nc, D, frame, layout)
      invariant RevivedUpTo(keys, i, C, D0) && OnlyRevived(keys, i, C, D0)
    {
      label Before:
      nc, D := IncomingStep(keys, i, C, D0, nc, D, frame, layout);
      RevivedGrow(keys, i, C, D0);
      i := i + 1;
    }
    assert forall k :: k in keys ==> exists j :: 0 <= j < |keys| && keys[j] == k;
  }

  /** The records revived among the first `i` keys are among those revived
      among the first `i + 1`. */
  lemma RevivedGrow(keys: seq<Key>, i: nat, C: OrderedMap<Rec>, D0: OrderedMap<Rec>)
    requires i < |keys|
    ensures RevivedNodes(keys, i, C, D0) <= RevivedNodes(keys, i + 1, C, D0)
    ensures RevivedAnimations(keys, i, C, D0) <= RevivedAnimations(keys, i + 1, C, D0)
  {
  }

  /** The second loop (src/index.js:128-133): `nc` is the new current
      dictionary, and every current key it lacks moves, re-sampled, to the
      end of the leaving one. */
  method DiffOutgoing(keys: seq<Key>, C: OrderedMap<Rec>, nc: OrderedMap<Rec>, D1: OrderedMap<Rec>,
                      frame: Box, layout: Layout)
    returns (D: OrderedMap<Rec>)
    requires C.Valid() && D1.Valid() && nc.Valid() && nc.keys == keys
    requires forall k :: k in D1.entries ==> k !in C.entries
    ensures OutgoingAt(keys, C, |C.keys|, D1, D, frame, layout)
  {
    D := D1;
    OutgoingStart(keys, C, D1, frame, layout);
    var j := 0;
    while j < |C.keys|
      invariant OutgoingAt(keys, C, j, D1, D, frame, layout)
    {
      var key := C.keys[j];
      if key !in nc.entries {
        OutgoingMove(keys, C, j, D1, D, frame, layout);
        D := D.Put(key, SetBoundingRect(C.entries[key], frame, layout));
      } else {
        OutgoingStay(keys, C, j, D1, D, frame, layout);
      }
      j := j + 1;
    }
  }

  /** The diff of the new list `keys` against the current dictionary `C` and
      the leaving dictionary `D0`, sampled in the container box `frame`. */
  method KeyedDiff(keys: seq<Key>, C: OrderedMap<Rec>, D0: OrderedMap<Rec>, frame: Box, layout: Layout)
    returns (nc: OrderedMap<Rec>, D: OrderedMap<Rec>)
    requires Distinct(keys) && Separate(C, D0) && RevivedMounted(keys, C, D0)
    modifies AnimationsIn(D0.entries)`cancelled, NodesIn(D0.entries)`absolute, NodesIn(D0.entries)`styleTop
    ensures Reconciled(keys, C, D0, nc, D, frame, layout)
    ensures RevivedInFlow(keys, C, D0) && OnlyRevived(keys, |keys|, C, D0)
  {
    var D1;
    nc, D1 := DiffIncoming(keys, C, D0, frame, layout);
    UnleftDisjoint(keys, C, D0, D1);
    D := DiffOutgoing(keys, C, nc, D1, frame, layout);
    DiffDone(keys, C, D0, nc, D1, D, frame, layout);
  }

  /** What the first loop leaves in the leaving dictionary is still disjoint
      from the current one. */
  lemma UnleftDisjoint(keys: seq<Key>, C: OrderedMap<Rec>, D0: OrderedMap<Rec>, D1: OrderedMap<Rec>)
    requires Separate(C, D0) && Unleft(keys, |keys|, D0, D1)
    ensures forall k :: k in D1.entries ==> k !in C.entries
  {
  }
}
