/** The subscriber `createApp` installs first (index.js:508-542): on every new
    state, for each surface, it replaces the surface's configuration when it
    is no longer deep-equal to the stored one, marks the surface's objects,
    renders the surface's tree into it, removes again the objects of its own
    snapshot that are still marked, discards the active selection when one of
    those was active, and asks for a redraw. */
module Refresh {
  import opened Values
  import opened Names
  import opened Tree
  import opened Scene
  import opened Canvas
  import opened Reconcile
  import opened Pass

  /** `updateObject(fabricCanvas.__configs = currentConfigs)` and
      `calcOffset()`, done only when the configuration changed. `updateObject`
      receives no props argument, so nothing is set on the surface. */
  function ConfigsS(sc: Scene, configs: Value): Scene {
    if configs != sc.configs then sc.(configs := configs, log := sc.log + [CalcOffset]) else sc
  }

  /** Some removed object was part of the active selection. */
  predicate AnyActive(removed: seq<ObjId>, active: seq<ObjId>) {
    exists x :: x in removed && x in active
  }

  /** What the subscriber does for one surface after the configuration step:
      `objects` and `active` are its snapshots of the surface. */
  function AfterRender(r: Scene, objects: seq<ObjId>, active: seq<ObjId>): Scene {
    var t := MarkedAmong(objects, r.marked);
    var s2 := if |t| > 0 then RemoveS(r, t) else r;
    var s3 := if AnyActive(t, active) then s2.(active := [], log := s2.log + [DiscardActive]) else s2;
    s3.(log := s3.log + [RequestRedraw])
  }

  /** The configuration step followed by `objects.forEach(x => (x.__shouldRemove = true))`. */
  function MarkedS(sc: Scene, configs: Value): Scene {
    var s1 := ConfigsS(sc, configs);
    MarkAll(s1, Ids(s1.objs))
  }

  /** After the render pass: nothing more when it threw, otherwise the
      second removal, the selection check and the redraw request. */
  function ConcludeS(r: Outcome, objects: seq<ObjId>, active: seq<ObjId>): Outcome {
    if r.error.Some? then r else Outcome(AfterRender(r.scene, objects, active), None)
  }

  /** The subscriber's work on one surface; an unsupported type in the tree
      throws out of it after the configuration step and the partial render. */
  function RefreshS(sc: Scene, root: Node, configs: Value, env: Env): Outcome {
    ConcludeS(RenderPass(MarkedS(sc, configs), root, env), Ids(sc.objs), sc.active)
  }

  // ---------------------------------------------------------------------------
  // Facts used below

  /** Removing the same ids twice removes nothing more the second time. */
  lemma {:induction false} WithoutTwice(objs: seq<Obj>, ids: seq<ObjId>)
    ensures Without(Without(objs, ids), ids) == Without(objs, ids)
    decreases objs
  {
    if objs != [] {
      WithoutTwice(objs[1..], ids);
      var rest := Without(objs[1..], ids);
      if objs[0].id !in ids {
        var w := [objs[0]] + rest;
        assert w[0] == objs[0] && w[1..] == rest;
      } else {
        assert Without(objs, ids) == rest;
      }
    }
  }

  /** When every listed id is marked, all of them are picked, in order. */
  lemma {:induction false} AllMarkedAmong(ids: seq<ObjId>, marked: set<ObjId>)
    requires forall i :: 0 <= i < |ids| ==> ids[i] in marked
    ensures MarkedAmong(ids, marked) == ids
    decreases ids
  {
    if ids != [] {
      var n := |ids| - 1;
      var init := ids[..n];
      assert forall i :: 0 <= i < n ==> init[i] == ids[i];
      AllMarkedAmong(init, marked);
      assert MarkedAmong(ids, marked) == init + [ids[n]];
      assert ids == init + [ids[n]];
    }
  }

  /** Removing the ids of every object empties the list. */
  lemma WithoutAll(objs: seq<Obj>)
    ensures Without(objs, Ids(objs)) == []
  {
    var w := Without(objs, Ids(objs));
    WithoutMembers(objs, Ids(objs));
    if w != [] {
      assert w[0] in w;
      IdsMembership(objs, w[0]);
    }
  }

  /** Marking ids that are in use keeps a scene valid. */
  lemma MarkAllValid(sc: Scene)
    requires ValidScene(sc)
    ensures ValidScene(MarkAll(sc, Ids(sc.objs)))
  {
    forall id | id in MarkAll(sc, Ids(sc.objs)).marked ensures id < sc.nextId {
      if id in Ids(sc.objs) {
        var j :| 0 <= j < |sc.objs| && Ids(sc.objs)[j] == id;
      }
    }
  }

  /** A render pass touches neither the configuration nor the selection. */
  lemma PassKeepsSurface(sc: Scene, root: Node, env: Env)
    requires ValidScene(sc)
    ensures RenderPass(sc, root, env).scene.configs == sc.configs
    ensures RenderPass(sc, root, env).scene.active == sc.active
  {
    var leaves := Flatten(root);
    MarkAllValid(sc);
    RunClaims(MarkAll(sc, Ids(sc.objs)), leaves, |leaves|, env);
  }

  // ---------------------------------------------------------------------------
  // What the subscriber promises

  /** The configuration step: the surface holds the new configuration
      afterwards, and `calcOffset` is called exactly when it differs from the
      stored one; nothing else changes. */
  lemma ConfigsReplacedWhenChanged(sc: Scene, configs: Value)
    ensures ConfigsS(sc, configs).configs == configs
    ensures ConfigsS(sc, configs).log == sc.log + (if configs != sc.configs then [CalcOffset] else [])
    ensures ConfigsS(sc, configs).objs == sc.objs && ConfigsS(sc, configs).marked == sc.marked
    ensures ConfigsS(sc, configs).active == sc.active
  {
  }

  /** The steps after the render pass change the objects only by the second
      removal, touch neither the id counter nor the marks nor the
      configuration, discard the selection exactly when a removed object was
      active, and end with the redraw request. */
  lemma AfterRenderFacts(r: Scene, objects: seq<ObjId>, active: seq<ObjId>)
    ensures var f := AfterRender(r, objects, active);
      var t := MarkedAmong(objects, r.marked);
      && f.objs == (if |t| > 0 then Without(r.objs, t) else r.objs)
      && f.nextId == r.nextId && f.marked == r.marked && f.configs == r.configs
      && f.active == (if AnyActive(t, active) then [] else r.active)
      && |f.log| > 0 && f.log[|f.log| - 1] == RequestRedraw
  {
  }

  /** A second sweep over the same snapshot removes nothing more. */
  lemma SweepThenAfter(x: Scene, objects: seq<ObjId>, active: seq<ObjId>)
    ensures AfterRender(Sweep(x, objects), objects, active).objs == Sweep(x, objects).objs
  {
    var t := MarkedAmong(objects, x.marked);
    AfterRenderFacts(Sweep(x, objects), objects, active);
    if |t| > 0 {
      WithoutTwice(x.objs, t);
    }
  }

  /** The render pass of a marked scene, when it does not throw. */
  lemma PassIsSweep(m: Scene, root: Node, env: Env)
    requires RenderPass(m, root, env).error.None?
    ensures var leaves := Flatten(root);
      var all := Ids(m.objs);
      RenderPass(m, root, env).scene == Sweep(Run(MarkAll(m, all), leaves, |leaves|, env).scene, all)
  {
  }

  /** The render pass has already removed every object of the snapshot that is
      still marked, so the subscriber's second removal finds none of them in
      the surface: the objects are those the render pass left. */
  lemma SecondSweepRemovesNothing(sc: Scene, root: Node, configs: Value, env: Env)
    requires RefreshS(sc, root, configs, env).error.None?
    ensures RefreshS(sc, root, configs, env).scene.objs == RenderPass(MarkedS(sc, configs), root, env).scene.objs
  {
    var m := MarkedS(sc, configs);
    assert Ids(m.objs) == Ids(sc.objs);
    var leaves := Flatten(root);
    PassIsSweep(m, root, env);
    SweepThenAfter(Run(MarkAll(m, Ids(m.objs)), leaves, |leaves|, env).scene, Ids(sc.objs), sc.active);
  }

  /** After a successful refresh every object on the surface was claimed by a
      leaf of the tree, the configuration is the new one, the active selection
      is discarded exactly when a removed object of the snapshot was part of
      it, and the last call is the redraw request. */
  lemma RefreshFacts(sc: Scene, root: Node, configs: Value, env: Env)
    requires ValidScene(sc)
    requires RefreshS(sc, root, configs, env).error.None?
    ensures var f := RefreshS(sc, root, configs, env).scene;
      var m := MarkedS(sc, configs);
      var c := Claims(MarkAll(m, Ids(m.objs)), Flatten(root), |Flatten(root)|, env);
      var r := RenderPass(m, root, env).scene;
      var t := MarkedAmong(Ids(sc.objs), r.marked);
      && ValidScene(f)
      && (forall x :: x in Ids(f.objs) ==> x in c)
      && |f.objs| <= |Flatten(root)|
      && f.configs == configs
      && f.active == (if AnyActive(t, sc.active) then [] else sc.active)
      && |f.log| > 0 && f.log[|f.log| - 1] == RequestRedraw
  {
    var s1 := ConfigsS(sc, configs);
    var m := MarkedS(sc, configs);
    assert ValidScene(s1);
    MarkAllValid(s1);
    SurvivorsWereClaimed(m, Flatten(root), env);
    SecondSweepRemovesNothing(sc, root, configs, env);
    PassKeepsSurface(m, root, env);
    var r := RenderPass(m, root, env).scene;
    AfterRenderFacts(r, Ids(sc.objs), sc.active);
  }

  /** An empty tree removes every object of a non-empty surface in one
      batched call of the render pass; the subscriber's own removal call that
      follows names the same objects, which are no longer there. */
  lemma EmptyTreeRemovesAllAtOnce(sc: Scene, env: Env)
    requires sc.objs != []
    ensures var r := RenderPass(sc, List([]), env);
      && r.error.None?
      && r.scene.objs == []
      && r.scene.log == sc.log + [Remove(Ids(sc.objs))]
  {
    var all := Ids(sc.objs);
    assert Flatten(List([])) == [];
    var m := MarkAll(sc, all);
    assert Run(m, [], 0, env) == Outcome(m, None);
    AllMarkedAmong(all, m.marked);
    WithoutAll(sc.objs);
  }

  // ---------------------------------------------------------------------------
  // One leaf rendered twice

  /** A pass over one leaf is that leaf's step after the marking, followed by
      the sweep of the objects that were present. */
  lemma RenderOne(sc: Scene, leaf: Leaf, env: Env)
    ensures var m := MarkAll(sc, Ids(sc.objs));
      var st := Step(m, leaf, 0, env);
      RenderLeaves(sc, [leaf], env) ==
        if st.Err? then Outcome(m, Some(st.message)) else Outcome(Sweep(st.value, Ids(sc.objs)), None)
  {
    var m := MarkAll(sc, Ids(sc.objs));
    assert Run(m, [leaf], 1, env) == Next(Outcome(m, None), leaf, 0, env);
  }

  /** The end of a pass that kept the one object of the container. */
  lemma KeptOutcome(a: Scene, b: Scene, id: ObjId, tail: seq<Call>)
    requires id !in b.marked && b.log == a.log + tail
    ensures Sweep(b, [id]) == b
    ensures b.log[..|a.log|] == a.log && b.log[|a.log|..] == tail
  {
    assert MarkedAmong([id], b.marked) == [];
  }

  lemma OnlyOne(s: seq<Obj>, x: Obj)
    requires |s| == 1 && x in s
    ensures s == [x]
  {
  }

  /** The step of a leaf over an empty container. */
  lemma CreateSingle(sc: Scene, leaf: Leaf, env: Env) returns (o: Obj, b: Scene)
    requires ValidScene(sc) && sc.objs == [] && NormalizeName(leaf.kind) in env.registry
    ensures Step(sc, leaf, 0, env) == Ok(b) && b.objs == [o]
    ensures o.id == sc.nextId && o.key == EffectiveKey(ExplicitKey(leaf.props), 0)
    ensures o.kind == leaf.kind && o.stamp == Prepared(leaf.props, env.selection)
    ensures b.nextId == sc.nextId + 1
    ensures |b.log| >= |sc.log| && SetCoords(sc.nextId) in b.log[|sc.log|..]
  {
    StepCreate(sc, leaf, 0, env);
    b := Step(sc, leaf, 0, env).value;
    o :| o in b.objs && o.id == sc.nextId && o.key == EffectiveKey(ExplicitKey(leaf.props), 0) &&
         o.kind == leaf.kind && o.stamp == Prepared(leaf.props, env.selection);
    OnlyOne(b.objs, o);
  }

  /** A single leaf rendered into an empty container creates one object,
      with the leaf's effective key and type, stamped with its props, and
      recalculates its coordinates. */
  lemma SingleLeafCreates(sc: Scene, leaf: Leaf, env: Env)
    requires ValidScene(sc) && sc.objs == [] && NormalizeName(leaf.kind) in env.registry
    ensures var first := RenderLeaves(sc, [leaf], env);
      && first.error.None?
      && |first.scene.objs| == 1
      && first.scene.objs[0].id == sc.nextId
      && first.scene.objs[0].key == EffectiveKey(ExplicitKey(leaf.props), 0)
      && first.scene.objs[0].kind == leaf.kind
      && first.scene.objs[0].stamp == Prepared(leaf.props, env.selection)
      && first.scene.nextId == sc.nextId + 1
      && |first.scene.log| >= |sc.log|
      && SetCoords(sc.nextId) in first.scene.log[|sc.log|..]
  {
    assert Ids(sc.objs) == [];
    assert MarkAll(sc, Ids(sc.objs)) == sc;
    RenderOne(sc, leaf, env);
    var o, b := CreateSingle(sc, leaf, env);
    assert MarkedAmong([], b.marked) == [];
  }

  /** The calls a pass adds for a leaf that keeps object `o`. */
  function KeptCalls(o: Obj, leaf: Leaf, env: Env): seq<Call> {
    var props := Prepared(leaf.props, env.selection);
    var structural := StructuralProps(props, env.events);
    var ref := Lookup(leaf.props, "ref");
    (if HasChange(props, o.stamp) then [Set(o.id, structural)] else [])
    + (if NeedsCoords(structural) then [SetCoords(o.id)] else [])
    + (if Truthy(ref) then [InvokeRef(ref, o.id)] else [])
  }

  /** The step of a keyed leaf over the one marked object with its key. */
  lemma ReuseSingle(a: Scene, leaf: Leaf, env: Env) returns (b: Scene)
    requires |a.objs| == 1 && ExplicitKey(leaf.props) == Some(a.objs[0].key) && a.objs[0].kind == leaf.kind
    requires NormalizeName(leaf.kind) in env.registry
    ensures Step(MarkAll(a, Ids(a.objs)), leaf, 0, env) == Ok(b)
    ensures Ids(b.objs) == [a.objs[0].id] && b.nextId == a.nextId && a.objs[0].id !in b.marked
    ensures b.log == a.log + KeptCalls(a.objs[0], leaf, env)
  {
    var o := a.objs[0];
    var m := MarkAll(a, Ids(a.objs));
    assert Ids(a.objs) == [o.id];
    assert m.objs == a.objs;
    assert FirstWithKey(m.objs, o.key) == Some(0);
    assert Match(m.objs, ExplicitKey(leaf.props), 0) == Some(o);
    StepReuse(m, leaf, 0, env);
    b := Step(m, leaf, 0, env).value;
    var props := Prepared(leaf.props, env.selection);
    var structural := StructuralProps(props, env.events);
    var ref := Lookup(leaf.props, "ref");
    CallsAssociate(a.log, if HasChange(props, o.stamp) then [Set(o.id, structural)] else [],
                   if NeedsCoords(structural) then [SetCoords(o.id)] else [],
                   if Truthy(ref) then [InvokeRef(ref, o.id)] else []);
  }

  lemma CallsAssociate(log: seq<Call>, x: seq<Call>, y: seq<Call>, z: seq<Call>)
    ensures log + x + y + z == log + (x + y + z)
  {
  }

  /** The calls for a kept object: its props are set again exactly when one
      of them changed, its coordinates recalculated exactly when a coordinate
      prop is present, and its ref invoked last. */
  lemma KeptCallsFacts(o: Obj, leaf: Leaf, env: Env)
    ensures var props := Prepared(leaf.props, env.selection);
      var structural := StructuralProps(props, env.events);
      var calls := KeptCalls(o, leaf, env);
      && (Set(o.id, structural) in calls <==> HasChange(props, o.stamp))
      && (SetCoords(o.id) in calls <==> NeedsCoords(structural))
      && |calls| <= 3
  {
  }

  /** A single keyed leaf rendered into a container holding one object with
      that key and type keeps that very object (nothing created or removed)
      and appends only the calls for the kept object. */
  lemma SingleKeyedLeafKeeps(a: Scene, leaf: Leaf, env: Env)
    requires |a.objs| == 1 && ExplicitKey(leaf.props) == Some(a.objs[0].key) && a.objs[0].kind == leaf.kind
    requires NormalizeName(leaf.kind) in env.registry
    ensures var second := RenderLeaves(a, [leaf], env);
      && second.error.None?
      && Ids(second.scene.objs) == [a.objs[0].id]
      && second.scene.nextId == a.nextId
      && second.scene.log == a.log + KeptCalls(a.objs[0], leaf, env)
  {
    RenderOne(a, leaf, env);
    var b := ReuseSingle(a, leaf, env);
    KeptOutcome(a, b, a.objs[0].id, KeptCalls(a.objs[0], leaf, env));
  }

  /** A kept object whose props changed, with a coordinate prop among them,
      is set again and has its coordinates recalculated by the pass. */
  lemma ChangedLeafMoves(a: Scene, leaf: Leaf, env: Env)
    requires |a.objs| == 1 && ExplicitKey(leaf.props) == Some(a.objs[0].key) && a.objs[0].kind == leaf.kind
    requires NormalizeName(leaf.kind) in env.registry
    requires var props := Prepared(leaf.props, env.selection);
      HasChange(props, a.objs[0].stamp) && NeedsCoords(StructuralProps(props, env.events))
    ensures var second := RenderLeaves(a, [leaf], env);
      var structural := StructuralProps(Prepared(leaf.props, env.selection), env.events);
      && second.error.None?
      && Ids(second.scene.objs) == [a.objs[0].id]
      && second.scene.nextId == a.nextId
      && |second.scene.log| >= |a.log|
      && Set(a.objs[0].id, structural) in second.scene.log[|a.log|..]
      && SetCoords(a.objs[0].id) in second.scene.log[|a.log|..]
  {
    SingleKeyedLeafKeeps(a, leaf, env);
    KeptCallsFacts(a.objs[0], leaf, env);
    var calls := KeptCalls(a.objs[0], leaf, env);
    assert (a.log + calls)[|a.log|..] == calls;
  }

  /** The leaf of `element("rect", { key: 1, left, top: 10, width: 5, height: 5 })`. */
  function RectLeaf(left: int): Leaf {
    Leaf("rect", map["key" := Num(1), "left" := Num(left), "top" := Num(10),
                     "width" := Num(5), "height" := Num(5)], [])
  }

  lemma RectName()
    ensures NormalizeName("rect") == "Rect"
  {
    assert Words("t", false) == "t";
    assert Words("ct", false) == "ct";
    assert Words("ect", false) == "ect";
  }

  lemma RectChanges(left: int, other: int, selection: bool)
    requires left != other
    ensures HasChange(Prepared(RectLeaf(left).props, selection), Prepared(RectLeaf(other).props, selection))
  {
    var p := Prepared(RectLeaf(left).props, selection);
    assert p["left"] == Num(left);
    assert Lookup(Prepared(RectLeaf(other).props, selection), "left") == Num(other);
  }

  lemma StructuralHas(p: Props, events: set<string>, k: string)
    requires k in p && k !in events
    ensures k in StructuralProps(p, events)
  {
  }

  lemma RectMoves(left: int, selection: bool)
    ensures NeedsCoords(StructuralProps(Prepared(RectLeaf(left).props, selection), EventHash))
  {
    var own := RectLeaf(left).props;
    assert "left" in own;
    assert "left" != "key" && "left" != "ref";
    assert "left" in own - {"key", "ref"};
    assert "left" in Prepared(own, selection);
    assert "left"[..2] == "le";
    NotAHandler("left");
    StructuralHas(Prepared(own, selection), EventHash, "left");
  }

  lemma RectKey(left: int)
    ensures ExplicitKey(RectLeaf(left).props) == Some(Num(1))
  {
  }

  /** `element("rect", { key: 1, left: 10, top: 10, width: 5, height: 5 })`
      rendered into an empty container creates one rectangle keyed 1 and
      recalculates its coordinates. */
  lemma RectCreated(sc: Scene, env: Env)
    requires ValidScene(sc) && sc.objs == [] && "Rect" in env.registry && env.events == EventHash
    ensures var first := RenderLeaves(sc, [RectLeaf(10)], env);
      && first.error.None?
      && Ids(first.scene.objs) == [sc.nextId]
      && first.scene.objs[0].key == Num(1) && first.scene.objs[0].kind == "rect"
      && first.scene.objs[0].stamp == Prepared(RectLeaf(10).props, env.selection)
      && |first.scene.log| >= |sc.log|
      && SetCoords(sc.nextId) in first.scene.log[|sc.log|..]
  {
    RectName();
    RectKey(10);
    SingleLeafCreates(sc, RectLeaf(10), env);
  }

  /** Re-rendering that rectangle with `left: 20` keeps that very object, sets
      its props again and recalculates its coordinates. */
  lemma RectMoved(a: Scene, env: Env)
    requires |a.objs| == 1 && a.objs[0].key == Num(1) && a.objs[0].kind == "rect"
    requires a.objs[0].stamp == Prepared(RectLeaf(10).props, env.selection)
    requires "Rect" in env.registry && env.events == EventHash
    ensures var second := RenderLeaves(a, [RectLeaf(20)], env);
      && second.error.None?
      && Ids(second.scene.objs) == [a.objs[0].id]
      && second.scene.nextId == a.nextId
      && |second.scene.log| >= |a.log|
      && Set(a.objs[0].id, StructuralProps(Prepared(RectLeaf(20).props, env.selection), EventHash))
           in second.scene.log[|a.log|..]
      && SetCoords(a.objs[0].id) in second.scene.log[|a.log|..]
  {
    RectName();
    RectKey(20);
    RectChanges(20, 10, env.selection);
    RectMoves(20, env.selection);
    ChangedLeafMoves(a, RectLeaf(20), env);
  }

  /** The two renders in a row: the rectangle created by the first is the one
      the second keeps and moves. */
  lemma RectScenario(sc: Scene, env: Env)
    requires ValidScene(sc) && sc.objs == [] && "Rect" in env.registry && env.events == EventHash
    ensures var first := RenderLeaves(sc, [RectLeaf(10)], env);
      var second := RenderLeaves(first.scene, [RectLeaf(20)], env);
      && first.error.None? && second.error.None?
      && Ids(first.scene.objs) == Ids(second.scene.objs) == [sc.nextId]
      && second.scene.nextId == first.scene.nextId
  {
    RectCreated(sc, env);
    var first := RenderLeaves(sc, [RectLeaf(10)], env);
    RectMoved(first.scene, env);
  }

  // ---------------------------------------------------------------------------
  // The subscriber as a method

  /** The second removal, the selection check and the redraw request. */
  method SweepAgain(parent: Container, objects: seq<ObjId>, active: seq<ObjId>)
    modifies parent
    ensures parent.State() == AfterRender(old(parent.State()), objects, active)
  {
    var toRemove: seq<ObjId> := [];
    var discard := false;
    var j := 0;
    while j < |objects|
      invariant 0 <= j <= |objects|
      invariant toRemove == MarkedAmong(objects[..j], parent.marked)
      invariant discard == AnyActive(toRemove, active)
    {
      assert objects[..j + 1][..j] == objects[..j];
      if objects[j] in parent.marked {
        toRemove := toRemove + [objects[j]];
        if objects[j] in active {
          discard := true;
        }
      }
      j := j + 1;
    }
    assert objects[..|objects|] == objects;
    if |toRemove| > 0 {
      parent.Remove(toRemove);
    }
    if discard {
      parent.DiscardActiveObjects();
    }
    parent.RequestRenderAll();
  }

  /** The configuration step and the marking. */
  method ConfigureAndMark(parent: Container, configs: Value) returns (objects: seq<ObjId>, active: seq<ObjId>)
    modifies parent
    ensures objects == Ids(old(parent.objs)) && active == old(parent.active)
    ensures parent.State() == MarkedS(old(parent.State()), configs)
  {
    ghost var sc := parent.State();
    if configs != parent.configs {
      parent.ReplaceConfigs(configs);
    }
    assert parent.State() == ConfigsS(sc, configs);
    var objects0 := parent.GetObjects();
    objects := Ids(objects0);
    active := parent.GetActiveObjects();
    MarkEach(parent, objects);
  }

  /** The default subscriber's work for one surface. */
  method RefreshSurface(parent: Container, root: Node, configs: Value, registry: set<string>)
    returns (error: Option<string>)
    modifies parent
    ensures Outcome(parent.State(), error) == RefreshS(old(parent.State()), root, configs, EnvOf(parent, registry))
  {
    var objects, active := ConfigureAndMark(parent, configs);
    error := Render(root, parent, registry);
    if error.Some? {
      return;
    }
    SweepAgain(parent, objects, active);
  }
}
