/** What the reconciler promises, proved about the `Scene` functions: how one
    leaf is matched and resolved, what a whole pass removes, and that rendering
    the same tree twice leaves the objects alone (index.js:141-255). */
module Reconcile {
  import opened Values
  import opened Names
  import opened Tree
  import opened Scene

  // ---------------------------------------------------------------------------
  // Facts about the object list

  lemma IdsMembership(objs: seq<Obj>, o: Obj)
    requires o in objs
    ensures o.id in Ids(objs)
  {
    var j :| 0 <= j < |objs| && objs[j] == o;
    assert Ids(objs)[j] == o.id;
  }

  lemma DistinctConcat(a: seq<Obj>, b: seq<Obj>)
    requires DistinctIds(a) && DistinctIds(b)
    requires forall x, y :: x in a && y in b ==> x.id != y.id
    ensures DistinctIds(a + b)
  {
    forall j, k | 0 <= j < k < |a + b| ensures (a + b)[j].id != (a + b)[k].id {
      if k < |a| {
      } else if j >= |a| {
        assert (a + b)[j] == b[j - |a|] && (a + b)[k] == b[k - |a|];
      } else {
        assert (a + b)[j] in a && (a + b)[k] in b;
      }
    }
  }

  /** Removing objects keeps the rest distinct. */
  lemma {:induction false} WithoutDistinct(objs: seq<Obj>, ids: seq<ObjId>)
    requires DistinctIds(objs)
    ensures DistinctIds(Without(objs, ids))
    decreases objs
  {
    if objs != [] {
      var tail := objs[1..];
      assert DistinctIds(tail) by {
        forall j, k | 0 <= j < k < |tail| ensures tail[j].id != tail[k].id {
          assert tail[j] == objs[j + 1] && tail[k] == objs[k + 1];
        }
      }
      WithoutDistinct(tail, ids);
      WithoutMembers(tail, ids);
      var h := if objs[0].id in ids then [] else [objs[0]];
      forall x, y | x in h && y in Without(tail, ids) ensures x.id != y.id {
        var k :| 0 <= k < |tail| && tail[k] == y;
        assert objs[k + 1] == y;
      }
      DistinctConcat(h, Without(tail, ids));
    }
  }

  /** Removing an id nobody has changes nothing. */
  lemma {:induction false} WithoutAbsent(objs: seq<Obj>, id: ObjId)
    requires id !in Ids(objs)
    ensures Without(objs, [id]) == objs
    decreases objs
  {
    if objs != [] {
      assert Ids(objs)[0] == objs[0].id;
      assert id !in Ids(objs[1..]) by {
        forall k | 0 <= k < |objs[1..]| ensures Ids(objs[1..])[k] != id {
          assert Ids(objs[1..])[k] == Ids(objs)[k + 1];
        }
      }
      WithoutAbsent(objs[1..], id);
      assert objs == [objs[0]] + objs[1..];
    }
  }

  /** Removing one id from a list of distinct objects removes one object if
      the id is present, none otherwise. */
  lemma {:induction false} WithoutOne(objs: seq<Obj>, id: ObjId)
    requires DistinctIds(objs)
    ensures |Without(objs, [id])| == |objs| - (if id in Ids(objs) then 1 else 0)
    decreases objs
  {
    if objs != [] {
      var tail := objs[1..];
      assert DistinctIds(tail) by {
        forall j, k | 0 <= j < k < |tail| ensures tail[j].id != tail[k].id {
          assert tail[j] == objs[j + 1] && tail[k] == objs[k + 1];
        }
      }
      assert Ids(objs)[0] == objs[0].id;
      assert forall k :: 0 <= k < |tail| ==> Ids(tail)[k] == Ids(objs)[k + 1];
      if objs[0].id == id {
        assert id !in Ids(tail) by {
          forall k | 0 <= k < |tail| ensures Ids(tail)[k] != id {
            assert objs[k + 1].id != objs[0].id;
          }
        }
        WithoutAbsent(tail, id);
      } else {
        WithoutOne(tail, id);
        assert Ids(objs) == [objs[0].id] + Ids(tail);
      }
    }
  }

  /** Removing ids from a concatenation removes them from each part. */
  lemma {:induction false} WithoutConcat(a: seq<Obj>, b: seq<Obj>, ids: seq<ObjId>)
    ensures Without(a + b, ids) == Without(a, ids) + Without(b, ids)
    decreases a
  {
    if a == [] {
      assert a + b == b;
    } else {
      assert (a + b)[0] == a[0];
      assert (a + b)[1..] == a[1..] + b;
      WithoutConcat(a[1..], b, ids);
    }
  }

  /** Where a fresh object inserted at `index` stands once the object at `j` is
      removed: at the index (the end when the index is past it), one place
      earlier when the removed object stood before it. */
  lemma PlacedAt(objs: seq<Obj>, o: Obj, index: nat, j: nat)
    requires DistinctIds(objs) && o.id !in Ids(objs) && j < |objs|
    ensures var q := if index <= |objs| then index else |objs|;
      var w := Without(Insert(objs, o, index), [objs[j].id]);
      var pos := if j < q then q - 1 else q;
      pos < |w| && w[pos] == o
  {
    var q := if index <= |objs| then index else |objs|;
    var x := objs[j].id;
    var a, b := objs[..q], objs[q..];
    assert Insert(objs, o, index) == a + [o] + b;
    WithoutConcat(a + [o], b, [x]);
    WithoutConcat(a, [o], [x]);
    assert o.id != x by { assert Ids(objs)[j] == x; }
    assert Without([o], [x]) == [o];
    assert DistinctIds(a);
    if j < q {
      assert Ids(a)[j] == x;
      WithoutOne(a, x);
    } else {
      assert x !in Ids(a) by {
        forall k | 0 <= k < |a| ensures Ids(a)[k] != x {
          assert a[k] == objs[k];
        }
      }
      WithoutAbsent(a, x);
    }
  }

  /** Inserting an object whose id is new keeps the ids distinct. */
  lemma InsertDistinct(objs: seq<Obj>, o: Obj, index: nat)
    requires DistinctIds(objs)
    requires o.id !in Ids(objs)
    ensures DistinctIds(Insert(objs, o, index))
  {
    forall x | x in objs ensures x.id != o.id {
      IdsMembership(objs, x);
    }
    if index <= |objs| {
      var a, b := objs[..index], objs[index..];
      assert DistinctIds(a) && DistinctIds(b) by {
        forall j, k | 0 <= j < k < |b| ensures b[j].id != b[k].id {
          assert b[j] == objs[index + j] && b[k] == objs[index + k];
        }
      }
      forall x, y | x in a && y in b ensures x.id != y.id {
        var j :| 0 <= j < |a| && a[j] == x;
        var k :| 0 <= k < |b| && b[k] == y;
        assert objs[j] == x && objs[index + k] == y;
      }
      DistinctConcat(a, [o]);
      DistinctConcat(a + [o], b);
    } else {
      DistinctConcat(objs, [o]);
    }
  }

  // ---------------------------------------------------------------------------
  // One leaf

  /** An unsupported type throws with its normalised name and changes nothing;
      a supported one never throws. */
  lemma StepFailsOnlyWhenUnsupported(sc: Scene, leaf: Leaf, index: nat, env: Env)
    ensures Step(sc, leaf, index, env).Err? <==> NormalizeName(leaf.kind) !in env.registry
    ensures Step(sc, leaf, index, env).Err? ==>
      Step(sc, leaf, index, env).message == "Element type " + NormalizeName(leaf.kind) + " is not supported"
  {
  }

  /** A leaf with an explicit key is matched with the first object carrying that
      key wherever it stands, and when the type agrees it is kept in place: no
      object is created, none is moved. */
  lemma KeyedMatchAnywhere(sc: Scene, leaf: Leaf, index: nat, j: nat)
    requires ExplicitKey(leaf.props).Some?
    requires j < |sc.objs| && sc.objs[j].key == ExplicitKey(leaf.props).value
    requires forall i :: 0 <= i < j ==> sc.objs[i].key != ExplicitKey(leaf.props).value
    requires sc.objs[j].kind == leaf.kind
    ensures var key := ExplicitKey(leaf.props);
      && Match(sc.objs, key, index) == Some(sc.objs[j])
      && !ShouldCreate(Match(sc.objs, key, index), EffectiveKey(key, index), leaf.kind)
  {
    FirstWithKeyIsFirst(sc.objs, ExplicitKey(leaf.props).value);
  }

  /** A leaf without a key is matched with the object at its own index, and keeps
      it exactly when that object is of the same type and was keyed by that index;
      an explicitly keyed object there is never reused for it. */
  lemma UnkeyedMatchesByIndex(sc: Scene, leaf: Leaf, index: nat)
    requires ExplicitKey(leaf.props).None?
    ensures Match(sc.objs, None, index) == ItemAt(sc.objs, index)
    ensures !ShouldCreate(Match(sc.objs, None, index), EffectiveKey(None, index), leaf.kind) <==>
      index < |sc.objs| && sc.objs[index].key == Num(index) && sc.objs[index].kind == leaf.kind
  {
  }

  /** The reuse branch keeps the same objects in the same order with their
      identity fields; it leaves them exactly as they were unless `changed`. */
  lemma ReuseBranchFacts(sc: Scene, id: ObjId, changed: bool, structural: Props, events: Props,
                         coords: bool, ref: Value)
    ensures var r := ReuseBranch(sc, id, changed, structural, events, coords, ref);
      && Ids(r.objs) == Ids(sc.objs)
      && (forall k :: 0 <= k < |r.objs| ==>
            r.objs[k].key == sc.objs[k].key && r.objs[k].kind == sc.objs[k].kind &&
            r.objs[k].stamp == sc.objs[k].stamp)
      && (!changed ==> r.objs == sc.objs)
      && r.nextId == sc.nextId && r.childAdded == sc.childAdded
      && r.marked == sc.marked - {id}
      && r.log == sc.log
                  + (if changed then [Set(id, structural)] else [])
                  + (if coords then [SetCoords(id)] else [])
                  + (if Truthy(ref) then [InvokeRef(ref, id)] else [])
      && r.configs == sc.configs && r.active == sc.active
  {
    var a1 := Assign(sc.objs, id, structural);
    AssignKeeps(sc.objs, id, structural);
    AssignKeeps(a1, id, events);
    SameIdentitiesTrans(Assign(a1, id, events), a1, sc.objs);
    assert ReuseBranch(sc, id, changed, structural, events, coords, ref).objs
        == if changed then Assign(a1, id, events) else sc.objs;
  }

  /** When a leaf keeps its matched object: the same objects stay in the same
      order with their identity fields (key, type, stamped props) untouched, so
      the stamp is never refreshed; the object is updated through its setter
      exactly when a new prop differs from the stamp, and if none does the
      objects are left exactly as they were, whatever has been assigned to them
      since; coordinates are recalculated only when a coordinate prop is present. */
  lemma StepReuse(sc: Scene, leaf: Leaf, index: nat, env: Env)
    requires NormalizeName(leaf.kind) in env.registry
    requires var key := ExplicitKey(leaf.props);
      !ShouldCreate(Match(sc.objs, key, index), EffectiveKey(key, index), leaf.kind)
    ensures Step(sc, leaf, index, env).Ok?
    ensures var r := Step(sc, leaf, index, env).value;
      var m := Match(sc.objs, ExplicitKey(leaf.props), index).value;
      var props := Prepared(leaf.props, env.selection);
      var structural := StructuralProps(props, env.events);
      var ref := Lookup(leaf.props, "ref");
      && Ids(r.objs) == Ids(sc.objs)
      && (forall k :: 0 <= k < |r.objs| ==>
            r.objs[k].key == sc.objs[k].key && r.objs[k].kind == sc.objs[k].kind &&
            r.objs[k].stamp == sc.objs[k].stamp)
      && (!HasChange(props, m.stamp) ==> r.objs == sc.objs)
      && r.nextId == sc.nextId && r.childAdded == sc.childAdded
      && r.marked == sc.marked - {m.id}
      && r.log == sc.log
                  + (if HasChange(props, m.stamp) then [Set(m.id, structural)] else [])
                  + (if NeedsCoords(structural) then [SetCoords(m.id)] else [])
                  + (if Truthy(ref) then [InvokeRef(ref, m.id)] else [])
      && r.configs == sc.configs && r.active == sc.active
  {
    var m := Match(sc.objs, ExplicitKey(leaf.props), index).value;
    var props := Prepared(leaf.props, env.selection);
    var structural := StructuralProps(props, env.events);
    var ref := Lookup(leaf.props, "ref");
    assert Step(sc, leaf, index, env) ==
      Ok(ReuseBranch(sc, m.id, HasChange(props, m.stamp), structural, EventProps(props, env.events), NeedsCoords(structural), ref));
    ReuseBranchFacts(sc, m.id, HasChange(props, m.stamp), structural, EventProps(props, env.events), NeedsCoords(structural), ref);
  }

  /** Placing a fresh object: it is in the container with distinct ids, and the
      displaced one is not. */
  lemma PlacedFacts(sc: Scene, typeName: string, arg: CtorArg, o: Obj, index: nat,
                    isGroup: bool, matched: Option<Obj>)
    requires ValidScene(sc) && o.id == sc.nextId
    requires matched.Some? ==> matched.value in sc.objs
    ensures var p := Placed(sc, typeName, arg, o, index, isGroup, matched);
      && o in p.objs
      && DistinctIds(p.objs)
      && (forall x :: x in p.objs ==> x in sc.objs || x == o)
      && (matched.Some? ==> matched.value.id !in Ids(p.objs))
      && |p.objs| == |sc.objs| + 1 - (if matched.Some? then 1 else 0)
      && p.nextId == sc.nextId + 1 && p.marked == sc.marked
      && p.childAdded == (sc.childAdded || isGroup)
      && |p.log| >= |sc.log| + 2
      && p.log[..|sc.log| + 2] == sc.log + [Construct(sc.nextId, typeName, arg), InsertAt(sc.nextId, index)]
  {
    var ins := Insert(sc.objs, o, index);
    InsertMembers(sc.objs, o, index);
    assert o.id !in Ids(sc.objs);
    InsertDistinct(sc.objs, o, index);
    var pre := sc.log + [Construct(sc.nextId, typeName, arg), InsertAt(sc.nextId, index)];
    var p := Placed(sc, typeName, arg, o, index, isGroup, matched);
    if matched.Some? {
      IdsMembership(sc.objs, matched.value);
      RemoveOne(ins, matched.value, o);
      assert p.log == pre + [Remove([matched.value.id])];
    } else {
      assert p.log == pre;
    }
    assert p.log[..|sc.log| + 2] == pre;
  }

  /** Removing an object present in a list of distinct objects: exactly the
      others stay, still distinct, one fewer. */
  lemma RemoveOne(objs: seq<Obj>, x: Obj, keep: Obj)
    requires DistinctIds(objs) && x in objs && keep in objs && keep.id != x.id
    ensures var w := Without(objs, [x.id]);
      && DistinctIds(w)
      && keep in w
      && (forall y :: y in w ==> y in objs)
      && x.id !in Ids(w)
      && |w| == |objs| - 1
  {
    var w := Without(objs, [x.id]);
    WithoutMembers(objs, [x.id]);
    WithoutOne(objs, x.id);
    WithoutDistinct(objs, [x.id]);
    IdsMembership(objs, x);
    forall k | 0 <= k < |w| ensures Ids(w)[k] != x.id {
      assert w[k] in w;
    }
  }

  /** The create branch: a fresh object is in the container, the displaced one
      is not, and the calls start with the construction and the insertion. */
  lemma CreateBranchFacts(sc: Scene, typeName: string, arg: CtorArg, effKey: Value, kind: string,
                          props: Props, index: nat, isGroup: bool, matched: Option<Obj>,
                          structural: Props, events: Props, ref: Value)
    requires ValidScene(sc)
    requires matched.Some? ==> matched.value in sc.objs
    ensures var r := CreateBranch(sc, typeName, arg, effKey, kind, props, index, isGroup, matched, structural, events, ref);
      && r.nextId == sc.nextId + 1
      && (exists o :: o in r.objs && o.id == sc.nextId && o.key == effKey && o.kind == kind && o.stamp == props)
      && (matched.Some? ==> matched.value.id !in Ids(r.objs))
      && |r.objs| == |sc.objs| + 1 - (if matched.Some? then 1 else 0)
      && r.childAdded == (sc.childAdded || isGroup)
      && r.marked == sc.marked - {sc.nextId}
      && |r.log| >= |sc.log| + 4
      && r.log[..|sc.log| + 2] == sc.log + [Construct(sc.nextId, typeName, arg), InsertAt(sc.nextId, index)]
      && Set(sc.nextId, structural) in r.log[|sc.log|..]
      && SetCoords(sc.nextId) in r.log[|sc.log|..]
    ensures var r := CreateBranch(sc, typeName, arg, effKey, kind, props, index, isGroup, matched, structural, events, ref);
      var q := if index <= |sc.objs| then index else |sc.objs|;
      && (matched.None? ==> q < |r.objs| && r.objs[q].id == sc.nextId)
      && (forall j :: 0 <= j < |sc.objs| && matched == Some(sc.objs[j]) ==>
            var pos := if j < q then q - 1 else q;
            pos < |r.objs| && r.objs[pos].id == sc.nextId)
  {
    assert sc.nextId !in Ids(sc.objs);
    CreatedAt(sc, typeName, arg, effKey, kind, props, index, isGroup, matched, structural, events, ref);
    var o := NewObj(sc.nextId, effKey, kind, props, arg);
    var p := Placed(sc, typeName, arg, o, index, isGroup, matched);
    PlacedFacts(sc, typeName, arg, o, index, isGroup, matched);
    FinishFacts(sc, p, typeName, arg, o, index, isGroup, matched, structural, events, ref);
    assert CreateBranch(sc, typeName, arg, effKey, kind, props, index, isGroup, matched, structural, events, ref)
        == FinishS(ApplyS(p, o.id, structural, events), o.id, true, ref);
  }

  /** Where the create branch leaves the fresh object: at the leaf's index
      (last when the index is past the end), or one place earlier when the
      displaced object stood before that index. */
  lemma CreatedAt(sc: Scene, typeName: string, arg: CtorArg, effKey: Value, kind: string,
                  props: Props, index: nat, isGroup: bool, matched: Option<Obj>,
                  structural: Props, events: Props, ref: Value)
    requires DistinctIds(sc.objs) && sc.nextId !in Ids(sc.objs)
    ensures var r := CreateBranch(sc, typeName, arg, effKey, kind, props, index, isGroup, matched, structural, events, ref);
      var q := if index <= |sc.objs| then index else |sc.objs|;
      && (matched.None? ==> q < |r.objs| && r.objs[q].id == sc.nextId)
      && (forall j :: 0 <= j < |sc.objs| && matched == Some(sc.objs[j]) ==>
            var pos := if j < q then q - 1 else q;
            pos < |r.objs| && r.objs[pos].id == sc.nextId)
  {
    var o := NewObj(sc.nextId, effKey, kind, props, arg);
    var r := CreateBranch(sc, typeName, arg, effKey, kind, props, index, isGroup, matched, structural, events, ref);
    CreateBranchIds(sc, typeName, arg, effKey, kind, props, index, isGroup, matched, structural, events, ref);
    InsertedAt(sc.objs, o, index, matched, Ids(r.objs));
  }

  /** Where an inserted object stands once the displaced object (if any) is
      removed, read through the ids of a list in the same order. */
  lemma InsertedAt(objs: seq<Obj>, o: Obj, index: nat, matched: Option<Obj>, ids: seq<ObjId>)
    requires DistinctIds(objs) && o.id !in Ids(objs)
    requires ids == Ids(if matched.Some? then Without(Insert(objs, o, index), [matched.value.id])
                        else Insert(objs, o, index))
    ensures var q := if index <= |objs| then index else |objs|;
      && (matched.None? ==> q < |ids| && ids[q] == o.id)
      && (forall j :: 0 <= j < |objs| && matched == Some(objs[j]) ==>
            var pos := if j < q then q - 1 else q;
            pos < |ids| && ids[pos] == o.id)
  {
    if matched.None? {
      InsertMembers(objs, o, index);
    }
    forall j | 0 <= j < |objs| && matched == Some(objs[j])
      ensures var q := if index <= |objs| then index else |objs|;
        var pos := if j < q then q - 1 else q;
        pos < |ids| && ids[pos] == o.id
    {
      PlacedAt(objs, o, index, j);
    }
  }

  /** The create branch leaves the container's objects in the order of
      `Insert` followed by the removal of the displaced object. */
  lemma CreateBranchIds(sc: Scene, typeName: string, arg: CtorArg, effKey: Value, kind: string,
                        props: Props, index: nat, isGroup: bool, matched: Option<Obj>,
                        structural: Props, events: Props, ref: Value)
    ensures var o := NewObj(sc.nextId, effKey, kind, props, arg);
      var ins := Insert(sc.objs, o, index);
      Ids(CreateBranch(sc, typeName, arg, effKey, kind, props, index, isGroup, matched, structural, events, ref).objs)
        == Ids(if matched.Some? then Without(ins, [matched.value.id]) else ins)
  {
    var o := NewObj(sc.nextId, effKey, kind, props, arg);
    var p := Placed(sc, typeName, arg, o, index, isGroup, matched);
    FinishKeepsIds(p, o.id, structural, events, ref);
  }

  /** Updating and finishing an object changes no position or identity. */
  lemma FinishKeepsIds(p: Scene, id: ObjId, structural: Props, events: Props, ref: Value)
    ensures Ids(FinishS(ApplyS(p, id, structural, events), id, true, ref).objs) == Ids(p.objs)
  {
    var a1 := Assign(p.objs, id, structural);
    AssignKeeps(p.objs, id, structural);
    AssignKeeps(a1, id, events);
  }

  /** Updating and finishing the placed object keeps what placing it established. */
  lemma FinishFacts(sc: Scene, p: Scene, typeName: string, arg: CtorArg, o: Obj, index: nat, isGroup: bool,
                    matched: Option<Obj>, structural: Props, events: Props, ref: Value)
    requires o in p.objs && o.id == sc.nextId
    requires matched.Some? ==> matched.value.id !in Ids(p.objs)
    requires |p.objs| == |sc.objs| + 1 - (if matched.Some? then 1 else 0)
    requires p.nextId == sc.nextId + 1 && p.marked == sc.marked
    requires p.childAdded == (sc.childAdded || isGroup)
    requires |p.log| >= |sc.log| + 2
    requires p.log[..|sc.log| + 2] == sc.log + [Construct(sc.nextId, typeName, arg), InsertAt(sc.nextId, index)]
    ensures var r := FinishS(ApplyS(p, o.id, structural, events), o.id, true, ref);
      && r.nextId == sc.nextId + 1
      && (exists x :: x in r.objs && x.id == sc.nextId && x.key == o.key && x.kind == o.kind && x.stamp == o.stamp)
      && (matched.Some? ==> matched.value.id !in Ids(r.objs))
      && |r.objs| == |sc.objs| + 1 - (if matched.Some? then 1 else 0)
      && r.childAdded == (sc.childAdded || isGroup)
      && r.marked == sc.marked - {sc.nextId}
      && |r.log| >= |sc.log| + 4
      && r.log[..|sc.log| + 2] == sc.log + [Construct(sc.nextId, typeName, arg), InsertAt(sc.nextId, index)]
      && Set(sc.nextId, structural) in r.log[|sc.log|..]
      && SetCoords(sc.nextId) in r.log[|sc.log|..]
  {
    var r := FinishS(ApplyS(p, o.id, structural, events), o.id, true, ref);
    CreateObjs(p, o, structural, events, ref, matched);
    CreateLog(sc.log, p, o.id, structural, events, ref);
    assert |r.objs| == |Ids(r.objs)| == |Ids(p.objs)| == |p.objs|;
  }

  lemma CreateObjs(p: Scene, o: Obj, structural: Props, events: Props, ref: Value, matched: Option<Obj>)
    requires o in p.objs
    requires matched.Some? ==> matched.value.id !in Ids(p.objs)
    ensures var r := FinishS(ApplyS(p, o.id, structural, events), o.id, true, ref);
      && (exists x :: x in r.objs && x.id == o.id && x.key == o.key && x.kind == o.kind && x.stamp == o.stamp)
      && (matched.Some? ==> matched.value.id !in Ids(r.objs))
      && Ids(r.objs) == Ids(p.objs)
  {
    var r := FinishS(ApplyS(p, o.id, structural, events), o.id, true, ref);
    var a1 := Assign(p.objs, o.id, structural);
    AssignKeeps(p.objs, o.id, structural);
    AssignKeeps(a1, o.id, events);
    SameIdentitiesTrans(r.objs, a1, p.objs);
    if matched.Some? {
      forall k | 0 <= k < |r.objs| ensures Ids(r.objs)[k] != matched.value.id {
        assert r.objs[k].id == p.objs[k].id == Ids(p.objs)[k];
      }
    }
    var j :| 0 <= j < |p.objs| && p.objs[j] == o;
    assert r.objs[j] in r.objs;
  }

  lemma CreateLog(prefix: seq<Call>, p: Scene, id: ObjId, structural: Props, events: Props, ref: Value)
    requires |p.log| >= |prefix| + 2
    ensures var r := FinishS(ApplyS(p, id, structural, events), id, true, ref);
      && |r.log| >= |p.log| + 2
      && r.log[..|prefix| + 2] == p.log[..|prefix| + 2]
      && Set(id, structural) in r.log[|prefix|..]
      && SetCoords(id) in r.log[|prefix|..]
  {
    var r := FinishS(ApplyS(p, id, structural, events), id, true, ref);
    var n := |prefix|;
    var tail := [Set(id, structural), SetCoords(id)] + (if Truthy(ref) then [InvokeRef(ref, id)] else []);
    assert r.log == p.log + tail;
    assert r.log[n..] == p.log[n..] + tail;
    assert tail[0] in r.log[n..] && tail[1] in r.log[n..];
  }

  /** When a leaf creates: a fresh object stamped with the leaf's effective key,
      type and prepared props is constructed and inserted at the leaf's index (at
      the end when the index is past it), the displaced object leaves the
      container, a group parent is flagged, and the new object always has its
      props set and its coordinates recalculated. */
  lemma StepCreate(sc: Scene, leaf: Leaf, index: nat, env: Env)
    requires ValidScene(sc)
    requires NormalizeName(leaf.kind) in env.registry
    requires var key := ExplicitKey(leaf.props);
      ShouldCreate(Match(sc.objs, key, index), EffectiveKey(key, index), leaf.kind)
    ensures Step(sc, leaf, index, env).Ok?
    ensures var r := Step(sc, leaf, index, env).value;
      var key := ExplicitKey(leaf.props);
      var m := Match(sc.objs, key, index);
      var props := Prepared(leaf.props, env.selection);
      var structural := StructuralProps(props, env.events);
      var arg := CtorArgFor(leaf.kind, structural);
      && r.nextId == sc.nextId + 1
      && (exists o :: o in r.objs && o.id == sc.nextId && o.key == EffectiveKey(key, index) &&
                      o.kind == leaf.kind && o.stamp == props)
      && (m.Some? ==> m.value.id !in Ids(r.objs))
      && |r.objs| == |sc.objs| + 1 - (if m.Some? then 1 else 0)
      && r.childAdded == (sc.childAdded || env.isGroup)
      && r.marked == sc.marked - {sc.nextId}
      && |r.log| >= |sc.log| + 4
      && r.log[..|sc.log| + 2] == sc.log + [Construct(sc.nextId, NormalizeName(leaf.kind), arg),
                                            InsertAt(sc.nextId, index)]
      && Set(sc.nextId, structural) in r.log[|sc.log|..]
      && SetCoords(sc.nextId) in r.log[|sc.log|..]
    ensures var r := Step(sc, leaf, index, env).value;
      var m := Match(sc.objs, ExplicitKey(leaf.props), index);
      var q := if index <= |sc.objs| then index else |sc.objs|;
      && (m.None? ==> q < |r.objs| && r.objs[q].id == sc.nextId)
      && (forall j :: 0 <= j < |sc.objs| && m == Some(sc.objs[j]) ==>
            var pos := if j < q then q - 1 else q;
            pos < |r.objs| && r.objs[pos].id == sc.nextId)
  {
    StepCreatedAt(sc, leaf, index, env);
    var key := ExplicitKey(leaf.props);
    var m := Match(sc.objs, key, index);
    var props := Prepared(leaf.props, env.selection);
    var structural := StructuralProps(props, env.events);
    var arg := CtorArgFor(leaf.kind, structural);
    var effKey := EffectiveKey(key, index);
    var ref := Lookup(leaf.props, "ref");
    MatchIsPresent(sc.objs, key, index);
    assert Step(sc, leaf, index, env) ==
      Ok(CreateBranch(sc, NormalizeName(leaf.kind), arg, effKey, leaf.kind, props, index, env.isGroup, m,
                      structural, EventProps(props, env.events), ref));
    CreateBranchFacts(sc, NormalizeName(leaf.kind), arg, effKey, leaf.kind, props, index, env.isGroup, m,
                      structural, EventProps(props, env.events), ref);
  }

  /** When a leaf creates, the fresh object stands at the leaf's index (last
      when the index is past the end), or one place earlier when the object it
      displaces stood before that index. */
  lemma StepCreatedAt(sc: Scene, leaf: Leaf, index: nat, env: Env)
    requires ValidScene(sc)
    requires NormalizeName(leaf.kind) in env.registry
    requires var key := ExplicitKey(leaf.props);
      ShouldCreate(Match(sc.objs, key, index), EffectiveKey(key, index), leaf.kind)
    ensures Step(sc, leaf, index, env).Ok?
    ensures var r := Step(sc, leaf, index, env).value;
      var m := Match(sc.objs, ExplicitKey(leaf.props), index);
      var q := if index <= |sc.objs| then index else |sc.objs|;
      && (m.None? ==> q < |r.objs| && r.objs[q].id == sc.nextId)
      && (forall j :: 0 <= j < |sc.objs| && m == Some(sc.objs[j]) ==>
            var pos := if j < q then q - 1 else q;
            pos < |r.objs| && r.objs[pos].id == sc.nextId)
  {
    var key := ExplicitKey(leaf.props);
    var m := Match(sc.objs, key, index);
    var props := Prepared(leaf.props, env.selection);
    var structural := StructuralProps(props, env.events);
    var arg := CtorArgFor(leaf.kind, structural);
    var ref := Lookup(leaf.props, "ref");
    assert Step(sc, leaf, index, env) ==
      Ok(CreateBranch(sc, NormalizeName(leaf.kind), arg, EffectiveKey(key, index), leaf.kind, props, index,
                      env.isGroup, m, structural, EventProps(props, env.events), ref));
    assert sc.nextId !in Ids(sc.objs);
    CreatedAt(sc, NormalizeName(leaf.kind), arg, EffectiveKey(key, index), leaf.kind, props, index,
              env.isGroup, m, structural, EventProps(props, env.events), ref);
  }

  /** The matched object is one of the container's. */
  lemma MatchIsPresent(objs: seq<Obj>, key: Option<Value>, index: nat)
    ensures Match(objs, key, index).Some? ==> Match(objs, key, index).value in objs
  {
  }
}
