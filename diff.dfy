/**
 The bookkeeping of the keyed diff in `componentWillReceiveProps`
 (src/index.js:105-134): which key ends up in which dictionary, holding which
 record. The first loop walks the new list of keys and builds the new current
 dictionary; the second walks the old current dictionary and moves the keys
 the new list lacks into the leaving one. The side effects on nodes and
 animations belong to the component.
 */
module Diff {
  import opened Geometry
  import opened KeyedMap
  import opened FlipDom

  ghost function Elems(s: seq<Key>): set<Key>
  {
    set k | k in s
  }

  /** The current dictionary `C` and the leaving dictionary `D`: both well
      formed, and no key in both. */
  ghost predicate Separate(C: OrderedMap<Rec>, D: OrderedMap<Rec>)
  {
    && C.Valid() && D.Valid()
    && (forall k :: k in C.entries ==> k !in D.entries)
  }

  /** The new dictionary holds the first `i` keys of the new list. */
  ghost predicate Listed(keys: seq<Key>, i: nat, nc: OrderedMap<Rec>)
  {
    i <= |keys| && nc.Valid() && nc.keys == keys[..i]
  }

  /** The leaving dictionary has lost the first `i` keys of the new list. */
  ghost predicate Unleft(keys: seq<Key>, i: nat, D0: OrderedMap<Rec>, D: OrderedMap<Rec>)
  {
    i <= |keys| && D.Valid() && D.keys == Minus(D0.keys, Elems(keys[..i]))
    && D.entries == D0.entries - Elems(keys[..i])
  }

  /** A key of the new list gets its current record re-sampled, else its
      leaving record revived, else a new record. */
  ghost predicate Provenance(C: OrderedMap<Rec>, D0: OrderedMap<Rec>, nc: OrderedMap<Rec>, frame: Box, layout: Layout)
  {
    forall k :: k in nc.entries ==>
      nc.entries[k] ==
        if k in C.entries then SetBoundingRect(C.entries[k], frame, layout)
        else if k in D0.entries then Revived(D0.entries[k], frame, layout)
        else CreateElement()
  }

  /** Where the first loop stands after the first `i` keys of the new list:
      `nc` is the new dictionary built so far and `D` the leaving one. */
  ghost predicate IncomingAt(keys: seq<Key>, i: nat, C: OrderedMap<Rec>, D0: OrderedMap<Rec>,
                             nc: OrderedMap<Rec>, D: OrderedMap<Rec>, frame: Box, layout: Layout)
  {
    Listed(keys, i, nc) && Unleft(keys, i, D0, D) && Provenance(C, D0, nc, frame, layout)
  }

  lemma IncomingStart(keys: seq<Key>, C: OrderedMap<Rec>, D0: OrderedMap<Rec>, frame: Box, layout: Layout)
    requires D0.Valid()
    ensures IncomingAt(keys, 0, C, D0, Empty(), D0, frame, layout)
  {
    assert Elems(keys[..0]) == {};
    MinusAbsent(D0.keys, {});
  }

  /** The facts every step needs about the key it handles. */
  lemma StepFacts(keys: seq<Key>, i: nat, nc: OrderedMap<Rec>)
    requires Distinct(keys) && i < |keys| && Listed(keys, i, nc)
    ensures keys[i] !in nc.entries && keys[i] !in Elems(keys[..i])
    ensures Elems(keys[..i + 1]) == Elems(keys[..i]) + {keys[i]}
    ensures keys[..i + 1] == keys[..i] + [keys[i]]
  {
    assert keys[..i + 1] == keys[..i] + [keys[i]];
  }

  lemma ListedStep(keys: seq<Key>, i: nat, nc: OrderedMap<Rec>, x: Rec)
    requires Distinct(keys) && i < |keys| && Listed(keys, i, nc)
    ensures Listed(keys, i + 1, nc.Put(keys[i], x))
  {
    assert keys[..i + 1] == keys[..i] + [keys[i]];
  }

  /** Handling a key that was not leaving leaves the leaving dictionary as it is. */
  lemma StayUnleft(keys: seq<Key>, i: nat, D0: OrderedMap<Rec>, D: OrderedMap<Rec>, nc: OrderedMap<Rec>)
    requires Distinct(keys) && i < |keys| && Listed(keys, i, nc) && Unleft(keys, i, D0, D)
    requires keys[i] !in D0.entries
    ensures Unleft(keys, i + 1, D0, D)
  {
    StepFacts(keys, i, nc);
    MinusAbsentKey(D0.keys, Elems(keys[..i]), keys[i]);
  }

  /** A key that is current keeps its record, re-sampled (src/index.js:108-113). */
  lemma IncomingKeep(keys: seq<Key>, i: nat, C: OrderedMap<Rec>, D0: OrderedMap<Rec>,
                     nc: OrderedMap<Rec>, D: OrderedMap<Rec>, frame: Box, layout: Layout)
    requires Distinct(keys) && Separate(C, D0) && i < |keys| && IncomingAt(keys, i, C, D0, nc, D, frame, layout)
    requires keys[i] in C.entries
    ensures IncomingAt(keys, i + 1, C, D0, nc.Put(keys[i], SetBoundingRect(C.entries[keys[i]], frame, layout)), D, frame, layout)
  {
    ListedStep(keys, i, nc, SetBoundingRect(C.entries[keys[i]], frame, layout));
    StayUnleft(keys, i, D0, D, nc);
  }

  /** A key that is leaving gets its record back, revived, and stops leaving
      (src/index.js:115-121). */
  lemma IncomingRevive(keys: seq<Key>, i: nat, C: OrderedMap<Rec>, D0: OrderedMap<Rec>,
                       nc: OrderedMap<Rec>, D: OrderedMap<Rec>, frame: Box, layout: Layout)
    requires Distinct(keys) && i < |keys| && IncomingAt(keys, i, C, D0, nc, D, frame, layout)
    requires keys[i] !in C.entries && keys[i] in D.entries
    ensures D.entries[keys[i]] == D0.entries[keys[i]]
    ensures IncomingAt(keys, i + 1, C, D0, nc.Put(keys[i], Revived(D.entries[keys[i]], frame, layout)),
                       D.Delete(keys[i]), frame, layout)
  {
    ListedStep(keys, i, nc, Revived(D.entries[keys[i]], frame, layout));
    ReviveUnleft(keys, i, D0, D, nc);
    ProvenanceStep(C, D0, nc, keys[i], Revived(D.entries[keys[i]], frame, layout), frame, layout);
  }

  lemma ReviveUnleft(keys: seq<Key>, i: nat, D0: OrderedMap<Rec>, D: OrderedMap<Rec>, nc: OrderedMap<Rec>)
    requires Distinct(keys) && i < |keys| && Listed(keys, i, nc) && Unleft(keys, i, D0, D)
    requires keys[i] in D.entries
    ensures D.entries[keys[i]] == D0.entries[keys[i]]
    ensures Unleft(keys, i + 1, D0, D.Delete(keys[i]))
  {
    StepFacts(keys, i, nc);
    MinusMinus(D0.keys, Elems(keys[..i]), {keys[i]});
  }

  /** Adding a key with the record its provenance prescribes keeps the provenance. */
  lemma ProvenanceStep(C: OrderedMap<Rec>, D0: OrderedMap<Rec>, nc: OrderedMap<Rec>, k: Key, x: Rec, frame: Box, layout: Layout)
    requires nc.Valid() && Provenance(C, D0, nc, frame, layout)
    requires x == if k in C.entries then SetBoundingRect(C.entries[k], frame, layout)
                  else if k in D0.entries then Revived(D0.entries[k], frame, layout)
                  else CreateElement()
    ensures Provenance(C, D0, nc.Put(k, x), frame, layout)
  {
  }

  /** A key in neither dictionary gets a new record (src/index.js:123-124). */
  lemma IncomingCreate(keys: seq<Key>, i: nat, C: OrderedMap<Rec>, D0: OrderedMap<Rec>,
                       nc: OrderedMap<Rec>, D: OrderedMap<Rec>, frame: Box, layout: Layout)
    requires Distinct(keys) && i < |keys| && IncomingAt(keys, i, C, D0, nc, D, frame, layout)
    requires keys[i] !in C.entries && keys[i] !in D.entries
    ensures keys[i] !in D0.entries
    ensures IncomingAt(keys, i + 1, C, D0, nc.Put(keys[i], CreateElement()), D, frame, layout)
  {
    StepFacts(keys, i, nc);
    ListedStep(keys, i, nc, CreateElement());
    StayUnleft(keys, i, D0, D, nc);
  }

  /** The records of `m` whose keys are in `s`, re-sampled. */
  ghost function SampledOnly(m: map<Key, Rec>, s: set<Key>, frame: Box, layout: Layout): map<Key, Rec>
  {
    map k | k in m && k in s :: SetBoundingRect(m[k], frame, layout)
  }

  /** Where the second loop stands after the first `j` current keys: each of
      them that the new list lacks has been appended, re-sampled, to the
      leaving dictionary `D1` the first loop left. */
  ghost predicate OutgoingAt(keys: seq<Key>, C: OrderedMap<Rec>, j: nat, D1: OrderedMap<Rec>, D: OrderedMap<Rec>,
                             frame: Box, layout: Layout)
  {
    && j <= |C.keys|
    && D.Valid()
    && D.keys == D1.keys + Minus(C.keys[..j], Elems(keys))
    && D.entries == D1.entries + SampledOnly(C.entries, Elems(C.keys[..j]) - Elems(keys), frame, layout)
  }

  lemma OutgoingStart(keys: seq<Key>, C: OrderedMap<Rec>, D1: OrderedMap<Rec>, frame: Box, layout: Layout)
    requires D1.Valid()
    ensures OutgoingAt(keys, C, 0, D1, D1, frame, layout)
  {
    assert C.keys[..0] == [];
    assert SampledOnly(C.entries, Elems(C.keys[..0]) - Elems(keys), frame, layout) == map[];
    assert D1.keys + [] == D1.keys;
  }

  /** The facts every step of the second loop needs about its key. */
  lemma OutgoingFacts(keys: seq<Key>, C: OrderedMap<Rec>, j: nat)
    requires C.Valid() && j < |C.keys|
    ensures C.keys[j] in C.entries && C.keys[j] !in C.keys[..j]
    ensures C.keys[..j + 1] == C.keys[..j] + [C.keys[j]]
    ensures Elems(C.keys[..j + 1]) == Elems(C.keys[..j]) + {C.keys[j]}
    ensures Minus(C.keys[..j + 1], Elems(keys)) ==
              Minus(C.keys[..j], Elems(keys)) + (if C.keys[j] in keys then [] else [C.keys[j]])
  {
    assert C.keys[..j + 1] == C.keys[..j] + [C.keys[j]];
    MinusSnoc(C.keys[..j], C.keys[j], Elems(keys));
  }

  /** A current key the new list keeps is not added (src/index.js:129). */
  lemma OutgoingStay(keys: seq<Key>, C: OrderedMap<Rec>, j: nat, D1: OrderedMap<Rec>, D: OrderedMap<Rec>,
                     frame: Box, layout: Layout)
    requires C.Valid() && j < |C.keys| && OutgoingAt(keys, C, j, D1, D, frame, layout)
    requires C.keys[j] in keys
    ensures OutgoingAt(keys, C, j + 1, D1, D, frame, layout)
  {
    OutgoingFacts(keys, C, j);
    assert Elems(C.keys[..j + 1]) - Elems(keys) == Elems(C.keys[..j]) - Elems(keys);
  }

  /** A current key the new list lacks is re-sampled and appended to the
      leaving dictionary (src/index.js:129-132). */
  lemma OutgoingMove(keys: seq<Key>, C: OrderedMap<Rec>, j: nat, D1: OrderedMap<Rec>, D: OrderedMap<Rec>,
                     frame: Box, layout: Layout)
    requires C.Valid() && j < |C.keys| && OutgoingAt(keys, C, j, D1, D, frame, layout)
    requires forall k :: k in D1.entries ==> k !in C.entries
    requires C.keys[j] !in keys
    ensures C.keys[j] !in D.entries
    ensures OutgoingAt(keys, C, j + 1, D1, D.Put(C.keys[j], SetBoundingRect(C.entries[C.keys[j]], frame, layout)), frame, layout)
  {
    MoveAbsent(keys, C, j, D1, D, frame, layout);
    MoveKeys(keys, C, j, D1, D, frame, layout);
    MoveEntries(keys, C, j, D1, D, frame, layout);
  }

  lemma MoveAbsent(keys: seq<Key>, C: OrderedMap<Rec>, j: nat, D1: OrderedMap<Rec>, D: OrderedMap<Rec>,
                   frame: Box, layout: Layout)
    requires C.Valid() && j < |C.keys| && OutgoingAt(keys, C, j, D1, D, frame, layout)
    requires forall k :: k in D1.entries ==> k !in C.entries
    ensures C.keys[j] !in D.entries
  {
    var k := C.keys[j];
    OutgoingFacts(keys, C, j);
    assert k !in D1.entries;
    assert k !in Minus(C.keys[..j], Elems(keys));
    assert k !in D.keys;
  }

  lemma MoveKeys(keys: seq<Key>, C: OrderedMap<Rec>, j: nat, D1: OrderedMap<Rec>, D: OrderedMap<Rec>,
                 frame: Box, layout: Layout)
    requires C.Valid() && j < |C.keys| && D.Valid() && D.keys == D1.keys + Minus(C.keys[..j], Elems(keys))
    requires C.keys[j] !in keys && C.keys[j] !in D.entries
    ensures D.Put(C.keys[j], SetBoundingRect(C.entries[C.keys[j]], frame, layout)).keys
              == D1.keys + Minus(C.keys[..j + 1], Elems(keys))
  {
    var k := C.keys[j];
    OutgoingFacts(keys, C, j);
    var P := D.Put(k, SetBoundingRect(C.entries[k], frame, layout));
    assert P.keys == D.keys + [k];
    assert (D1.keys + Minus(C.keys[..j], Elems(keys))) + [k] == D1.keys + (Minus(C.keys[..j], Elems(keys)) + [k]);
  }

  lemma MoveEntries(keys: seq<Key>, C: OrderedMap<Rec>, j: nat, D1: OrderedMap<Rec>, D: OrderedMap<Rec>,
                    frame: Box, layout: Layout)
    requires C.Valid() && j < |C.keys| && D.Valid()
    requires D.entries == D1.entries + SampledOnly(C.entries, Elems(C.keys[..j]) - Elems(keys), frame, layout)
    requires C.keys[j] !in keys
    ensures D.Put(C.keys[j], SetBoundingRect(C.entries[C.keys[j]], frame, layout)).entries
              == D1.entries + SampledOnly(C.entries, Elems(C.keys[..j + 1]) - Elems(keys), frame, layout)
  {
    var k := C.keys[j];
    OutgoingFacts(keys, C, j);
    var S := Elems(C.keys[..j]) - Elems(keys);
    assert Elems(C.keys[..j + 1]) - Elems(keys) == S + {k};
    SampledOnlyGrow(C.entries, S, k, frame, layout);
    UnionUpdate(D1.entries, SampledOnly(C.entries, S, frame, layout), k, SetBoundingRect(C.entries[k], frame, layout));
  }

  lemma SampledOnlyGrow(m: map<Key, Rec>, s: set<Key>, k: Key, frame: Box, layout: Layout)
    requires k in m
    ensures SampledOnly(m, s + {k}, frame, layout) == SampledOnly(m, s, frame, layout)[k := SetBoundingRect(m[k], frame, layout)]
  {
  }

  lemma UnionUpdate(a: map<Key, Rec>, b: map<Key, Rec>, k: Key, v: Rec)
    ensures (a + b)[k := v] == a + b[k := v]
  {
  }

  /** What the whole diff promises: the new current dictionary holds exactly
      the new list, each key with the record its provenance prescribes; the
      leaving one holds the old leaving keys the list lacks, then the old
      current keys it lacks (re-sampled), each in its old order; no key is in
      both. */
  ghost predicate Reconciled(keys: seq<Key>, C: OrderedMap<Rec>, D0: OrderedMap<Rec>,
                             nc: OrderedMap<Rec>, D: OrderedMap<Rec>, frame: Box, layout: Layout)
  {
    && nc.keys == keys
    && Provenance(C, D0, nc, frame, layout)
    && D.keys == Minus(D0.keys, Elems(keys)) + Minus(C.keys, Elems(keys))
    && D.entries == (D0.entries - Elems(keys)) + SampledOnly(C.entries, C.entries.Keys - Elems(keys), frame, layout)
    && Separate(nc, D)
  }

  /** After both loops the diff is done. */
  lemma DiffDone(keys: seq<Key>, C: OrderedMap<Rec>, D0: OrderedMap<Rec>,
                 nc: OrderedMap<Rec>, D1: OrderedMap<Rec>, D: OrderedMap<Rec>, frame: Box, layout: Layout)
    requires Distinct(keys) && Separate(C, D0)
    requires IncomingAt(keys, |keys|, C, D0, nc, D1, frame, layout)
    requires OutgoingAt(keys, C, |C.keys|, D1, D, frame, layout)
    ensures Reconciled(keys, C, D0, nc, D, frame, layout)
  {
    DoneShape(keys, C, D0, nc, D1, D, frame, layout);
    DoneSeparate(keys, C, D0, nc, D, frame, layout);
  }

  /** No child disappears at a diff: every key rendered before (current or
      leaving) is rendered after, and a key leaves exactly when the new list
      lacks it. */
  lemma NothingVanishes(keys: seq<Key>, C: OrderedMap<Rec>, D0: OrderedMap<Rec>,
                        nc: OrderedMap<Rec>, D: OrderedMap<Rec>, frame: Box, layout: Layout)
    requires Reconciled(keys, C, D0, nc, D, frame, layout)
    ensures nc.entries.Keys + D.entries.Keys == Elems(keys) + C.entries.Keys + D0.entries.Keys
    ensures D.entries.Keys == (C.entries.Keys + D0.entries.Keys) - Elems(keys)
  {
    assert nc.entries.Keys == Elems(keys);
    LeavingKeys(Elems(keys), C.entries, D0.entries, D.entries, frame, layout);
  }

  lemma LeavingKeys(K: set<Key>, C: map<Key, Rec>, D0: map<Key, Rec>, D: map<Key, Rec>, frame: Box, layout: Layout)
    requires D == (D0 - K) + SampledOnly(C, C.Keys - K, frame, layout)
    ensures D.Keys == (C.Keys + D0.Keys) - K
  {
    assert SampledOnly(C, C.Keys - K, frame, layout).Keys == C.Keys - K;
  }

  lemma DoneShape(keys: seq<Key>, C: OrderedMap<Rec>, D0: OrderedMap<Rec>,
                  nc: OrderedMap<Rec>, D1: OrderedMap<Rec>, D: OrderedMap<Rec>, frame: Box, layout: Layout)
    requires C.Valid()
    requires IncomingAt(keys, |keys|, C, D0, nc, D1, frame, layout)
    requires OutgoingAt(keys, C, |C.keys|, D1, D, frame, layout)
    ensures nc.keys == keys && nc.Valid()
    ensures D.keys == Minus(D0.keys, Elems(keys)) + Minus(C.keys, Elems(keys))
    ensures D.entries == (D0.entries - Elems(keys)) + SampledOnly(C.entries, C.entries.Keys - Elems(keys), frame, layout)
  {
    assert keys[..|keys|] == keys;
    assert C.keys[..|C.keys|] == C.keys;
    assert Elems(C.keys) == C.entries.Keys;
  }

  lemma DoneSeparate(keys: seq<Key>, C: OrderedMap<Rec>, D0: OrderedMap<Rec>,
                     nc: OrderedMap<Rec>, D: OrderedMap<Rec>, frame: Box, layout: Layout)
    requires nc.Valid() && D.Valid() && nc.keys == keys
    requires D.entries == (D0.entries - Elems(keys)) + SampledOnly(C.entries, C.entries.Keys - Elems(keys), frame, layout)
    ensures Separate(nc, D)
  {
    assert nc.entries.Keys == Elems(keys);
  }

  /** A list without repetitions has as many distinct elements as entries. */
  lemma {:induction false} DistinctCard(s: seq<Key>)
    requires Distinct(s)
    ensures |Elems(s)| == |s|
  {
    if s != [] {
      DistinctInit(s);
      DistinctCard(s[..|s| - 1]);
      assert s == s[..|s| - 1] + [s[|s| - 1]];
      assert Elems(s) == Elems(s[..|s| - 1]) + {s[|s| - 1]};
    }
  }
}
