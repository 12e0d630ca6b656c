/** The parent container (a canvas surface or a group) as an object whose
    methods update it in place, and the imperative `render` that drives it
    (index.js:73-87, 100-256). Each method is proved to act exactly as the
    corresponding function of the `Scene` module, so every property proved
    there holds of these methods. */
module Canvas {
  import opened Values
  import opened Names
  import opened Tree
  import opened Scene

  class Container {
    var objs: seq<Obj>
    var marked: set<ObjId>
    var nextId: ObjId
    var childAdded: bool
    var configs: Value
    var active: seq<ObjId>
    var log: seq<Call>
    /** `canvas.selection` */
    const selection: bool
    /** `parent.__type === "group"` */
    const isGroup: bool

    function State(): Scene
      reads this
    {
      Scene(objs, marked, nextId, childAdded, configs, active, log)
    }

    constructor (selection: bool, isGroup: bool, configs: Value)
      ensures State() == Scene([], {}, 0, false, configs, [], [])
      ensures this.selection == selection && this.isGroup == isGroup
    {
      objs, marked, nextId, childAdded := [], {}, 0, false;
      this.configs, active, log := configs, [], [];
      this.selection, this.isGroup := selection, isGroup;
    }

    /** `getObjects()`: a copy of the object list. */
    method GetObjects() returns (r: seq<Obj>)
      ensures r == objs
    {
      r := objs;
    }

    /** `item(index)` */
    method Item(index: nat) returns (r: Option<Obj>)
      ensures r == ItemAt(objs, index)
    {
      if index < |objs| { r := Some(objs[index]); } else { r := None; }
    }

    /** `getObjects().find(x => x.__key === key)`: the first object with that key. */
    method FindByKey(key: Value) returns (r: Option<Obj>)
      ensures r == Match(objs, Some(key), 0)
    {
      FirstWithKeyIsFirst(objs, key);
      var j := 0;
      while j < |objs|
        invariant 0 <= j <= |objs|
        invariant forall i :: 0 <= i < j ==> objs[i].key != key
      {
        if objs[j].key == key {
          return Some(objs[j]);
        }
        j := j + 1;
      }
      return None;
    }

    /** `Object.assign(new constr(arg), { __key, __props, __type })` */
    method Construct(typeName: string, arg: CtorArg, key: Value, kind: string, stamp: Props)
      returns (o: Obj)
      modifies this
      ensures o == NewObj(old(nextId), key, kind, stamp, arg)
      ensures State() == ConstructS(old(State()), typeName, arg)
    {
      o := NewObj(nextId, key, kind, stamp, arg);
      log := log + [Call.Construct(nextId, typeName, arg)];
      nextId := nextId + 1;
    }

    /** `insertAt(o, index)` */
    method InsertAt(o: Obj, index: nat)
      modifies this
      ensures State() == InsertS(old(State()), o, index)
    {
      objs := Insert(objs, o, index);
      log := log + [Call.InsertAt(o.id, index)];
    }

    /** `remove(...objects)`: objects not in the container are ignored. */
    method Remove(ids: seq<ObjId>)
      modifies this
      ensures State() == RemoveS(old(State()), ids)
    {
      objs := Without(objs, ids);
      log := log + [Call.Remove(ids)];
    }

    /** `obj.set(props)` on the object with the given id. */
    method Set(id: ObjId, props: Props)
      modifies this
      ensures State() == SetS(old(State()), id, props)
    {
      objs := Assign(objs, id, props);
      log := log + [Call.Set(id, props)];
    }

    /** `Object.assign(obj, props)` on the object with the given id. */
    method AssignFields(id: ObjId, props: Props)
      modifies this
      ensures State() == AssignS(old(State()), id, props)
    {
      objs := Assign(objs, id, props);
    }

    /** `obj.setCoords()` */
    method SetCoords(id: ObjId)
      modifies this
      ensures State() == CoordsS(old(State()), id)
    {
      log := log + [Call.SetCoords(id)];
    }

    /** `ref(obj)` */
    method CallRef(ref: Value, id: ObjId)
      modifies this
      ensures State() == RefS(old(State()), ref, id)
    {
      log := log + [InvokeRef(ref, id)];
    }

    /** `x.__shouldRemove = true` */
    method Mark(id: ObjId)
      modifies this
      ensures State() == old(State()).(marked := old(marked) + {id})
    {
      marked := marked + {id};
    }

    /** `delete obj.__shouldRemove` */
    method Unmark(id: ObjId)
      modifies this
      ensures State() == old(State()).(marked := old(marked) - {id})
    {
      marked := marked - {id};
    }

    /** `getActiveObjects()` */
    method GetActiveObjects() returns (r: seq<ObjId>)
      ensures r == active
    {
      r := active;
    }

    /** `fabricCanvas.__configs = configs` followed by `calcOffset()`. */
    method ReplaceConfigs(configs: Value)
      modifies this
      ensures State() == old(State()).(configs := configs, log := old(log) + [CalcOffset])
    {
      this.configs := configs;
      log := log + [CalcOffset];
    }

    /** `discardActiveObjects()` */
    method DiscardActiveObjects()
      modifies this
      ensures State() == old(State()).(active := [], log := old(log) + [DiscardActive])
    {
      active := [];
      log := log + [DiscardActive];
    }

    /** `debounceRenderAll()` */
    method RequestRenderAll()
      modifies this
      ensures State() == old(State()).(log := old(log) + [RequestRedraw])
    {
      log := log + [RequestRedraw];
    }

    /** `parent.__childAdded = true` */
    method MarkChildAdded()
      modifies this
      ensures State() == old(State()).(childAdded := true)
    {
      childAdded := true;
    }
  }

  function EnvOf(parent: Container, registry: set<string>): Env {
    Env(parent.selection, parent.isGroup, registry, EventHash)
  }

  /** `shouldUpdate`: scans the new props and stops at the first one that is not
      deep-equal to the stamped one. */
  method ShouldUpdate(child: Obj, props: Props) returns (hasChange: bool)
    ensures hasChange <==> exists k :: k in props && props[k] != Lookup(child.stamp, k)
  {
    hasChange := false;
    var remaining := props.Keys;
    while remaining != {}
      invariant remaining <= props.Keys
      invariant forall k :: k in props && k !in remaining ==> props[k] == Lookup(child.stamp, k)
      decreases remaining
    {
      var k :| k in remaining;
      if props[k] != Lookup(child.stamp, k) {
        hasChange := true;
        return;
      }
      remaining := remaining - {k};
    }
  }

  /** The `each(props, ...)` split into event handlers (the props named in
      `hash`) and structural props, noting whether a coordinate prop is present
      (index.js:177-191). */
  method SplitProps(props: Props, hash: set<string>) returns (events: Props, structural: Props, calcCoords: bool)
    ensures events == EventProps(props, hash) && structural == StructuralProps(props, hash)
    ensures calcCoords <==> NeedsCoords(structural)
  {
    events, structural, calcCoords := map[], map[], false;
    var remaining := props.Keys;
    while remaining != {}
      invariant remaining <= props.Keys
      invariant events == map k | k in props && k !in remaining && k in hash :: props[k]
      invariant structural == map k | k in props && k !in remaining && k !in hash :: props[k]
      invariant calcCoords <==> NeedsCoords(structural)
      decreases remaining
    {
      var k :| k in remaining;
      if k in hash {
        events := events[k := props[k]];
      } else {
        if k == "left" || k == "top" || k == "width" || k == "height" {
          calcCoords := true;
        }
        structural := structural[k := props[k]];
      }
      remaining := remaining - {k};
    }
  }

  /** `collect(comp, blockProps)`, pushing onto `list`. */
  method CollectInto(n: Node, inherited: Props, list: seq<Leaf>) returns (list': seq<Leaf>)
    ensures list' == list + Collect(n, inherited)
    decreases n, 1
  {
    match n
    case StateFn(out) => list' := CollectValueInto(out, inherited, list);
    case _ => list' := CollectValueInto(n, inherited, list);
  }

  method CollectValueInto(n: Node, inherited: Props, list: seq<Leaf>) returns (list': seq<Leaf>)
    ensures list' == list + CollectValue(n, inherited)
    decreases n, 0
  {
    match n
    case Falsy =>
      list' := list;
    case StateFn(_) =>
      list' := list + [Leaf("", inherited, [])];
    case List(items) =>
      list' := CollectAllInto(items, inherited, list);
    case Elem(Component(out), _, _) =>
      list' := CollectInto(out, map[], list);
    case Elem(Named(t), p, c) =>
      if t == "block" {
        list' := CollectAllInto(c, p, list);
      } else {
        list' := list + [Leaf(t, inherited + p, c)];
      }
  }

  /** `comp.forEach(x => collect(x, blockProps))` */
  method CollectAllInto(items: seq<Node>, inherited: Props, list: seq<Leaf>) returns (list': seq<Leaf>)
    ensures list' == list + CollectAll(items, inherited)
    decreases items
  {
    list' := list;
    var j := 0;
    while j < |items|
      invariant 0 <= j <= |items|
      invariant list' == list + CollectAll(items[..j], inherited)
    {
      list' := CollectInto(items[j], inherited, list');
      CollectAllAppend(items[..j], [items[j]], inherited);
      assert items[..j + 1] == items[..j] + [items[j]];
      assert CollectAll([items[j]], inherited) == Collect(items[j], inherited) + CollectAll([], inherited);
      j := j + 1;
    }
    assert items[..|items|] == items;
  }

  /** The local `update()`: the structural props through the setter, the event
      handlers as plain fields. */
  method Update(parent: Container, id: ObjId, structural: Props, events: Props)
    modifies parent
    ensures parent.State() == ApplyS(old(parent.State()), id, structural, events)
  {
    parent.Set(id, structural);
    parent.AssignFields(id, events);
  }

  /** Clear the removal mark, recalculate coordinates if asked, call `ref`. */
  method Finish(parent: Container, id: ObjId, coords: bool, ref: Value)
    modifies parent
    ensures parent.State() == FinishS(old(parent.State()), id, coords, ref)
  {
    parent.Unmark(id);
    if coords {
      parent.SetCoords(id);
    }
    if Truthy(ref) {
      parent.CallRef(ref, id);
    }
  }

  /** Construct, insert, flag the group, remove the displaced object. */
  method Place(parent: Container, typeName: string, arg: CtorArg, effKey: Value, kind: string,
               props: Props, index: nat, matched: Option<Obj>)
    returns (newObj: Obj)
    modifies parent
    ensures newObj == NewObj(old(parent.nextId), effKey, kind, props, arg)
    ensures parent.State() == Placed(old(parent.State()), typeName, arg, newObj, index, parent.isGroup, matched)
  {
    newObj := parent.Construct(typeName, arg, effKey, kind, props);
    parent.InsertAt(newObj, index);
    if parent.isGroup {
      parent.MarkChildAdded();
    }
    if matched.Some? {
      parent.Remove([matched.value.id]);
    }
  }

  /** The create branch of the leaf loop. */
  method CreateAndPlace(parent: Container, typeName: string, arg: CtorArg, effKey: Value, kind: string,
                        props: Props, index: nat, matched: Option<Obj>,
                        structural: Props, events: Props, ref: Value)
    modifies parent
    ensures parent.State() == CreateBranch(old(parent.State()), typeName, arg, effKey, kind, props,
                                           index, parent.isGroup, matched, structural, events, ref)
  {
    var newObj := Place(parent, typeName, arg, effKey, kind, props, index, matched);
    Update(parent, newObj.id, structural, events);
    Finish(parent, newObj.id, true, ref);
  }

  /** The reuse branch of the leaf loop. */
  method Reuse(parent: Container, matched: Obj, props: Props, structural: Props, events: Props,
               calcCoords: bool, ref: Value)
    modifies parent
    ensures parent.State() == ReuseBranch(old(parent.State()), matched.id, HasChange(props, matched.stamp),
                                          structural, events, calcCoords, ref)
  {
    var changed := ShouldUpdate(matched, props);
    if changed {
      Update(parent, matched.id, structural, events);
    }
    Finish(parent, matched.id, calcCoords, ref);
  }

  /** The body of the `list.forEach` loop for the leaf at `index`. */
  method ResolveLeaf(parent: Container, leaf: Leaf, index: nat, registry: set<string>)
    returns (error: Option<string>)
    modifies parent
    ensures var r := Step(old(parent.State()), leaf, index, EnvOf(parent, registry));
      && (r.Err? ==> error == Some(r.message) && parent.State() == old(parent.State()))
      && (r.Ok? ==> error == None && parent.State() == r.value)
  {
    var key := ExplicitKey(leaf.props);
    var ref := Lookup(leaf.props, "ref");
    var props := Prepared(leaf.props, parent.selection);
    var typeName := NormalizeName(leaf.kind);
    if typeName !in registry {
      return Some(UnsupportedMessage(typeName));
    }
    var obj: Option<Obj>;
    if key.Some? {
      obj := parent.FindByKey(key.value);
    } else {
      obj := parent.Item(index);
    }
    var events, structural, calcCoords := SplitProps(props, EventHash);
    var effKey := EffectiveKey(key, index);
    if ShouldCreate(obj, effKey, leaf.kind) {
      CreateAndPlace(parent, typeName, CtorArgFor(leaf.kind, structural), effKey, leaf.kind, props,
                     index, obj, structural, events, ref);
    } else {
      Reuse(parent, obj.value, props, structural, events, calcCoords, ref);
    }
    error := None;
  }

  /** `allObjects.forEach(x => (x.__shouldRemove = true))` */
  method MarkEach(parent: Container, all: seq<ObjId>)
    modifies parent
    ensures parent.State() == MarkAll(old(parent.State()), all)
  {
    var j := 0;
    while j < |all|
      invariant 0 <= j <= |all|
      invariant parent.State() == MarkAll(old(parent.State()), all[..j])
    {
      parent.Mark(all[j]);
      assert SetOf(all[..j + 1]) == SetOf(all[..j]) + {all[j]} by {
        assert all[..j + 1] == all[..j] + [all[j]];
      }
      j := j + 1;
    }
    assert all[..|all|] == all;
  }

  /** One turn of `list.forEach(...)`: the pass so far has not thrown. */
  method ResolveNext(parent: Container, ghost start: Scene, list: seq<Leaf>, i: nat, registry: set<string>)
    returns (error: Option<string>)
    requires i < |list|
    requires Run(start, list, i, EnvOf(parent, registry)) == Outcome(parent.State(), None)
    modifies parent
    ensures Run(start, list, i + 1, EnvOf(parent, registry)) == Outcome(parent.State(), error)
  {
    error := ResolveLeaf(parent, list[i], i, registry);
  }

  /** `list.forEach(...)`: the leaves in order, stopping at the first exception. */
  method ResolveAll(parent: Container, list: seq<Leaf>, registry: set<string>) returns (error: Option<string>)
    modifies parent
    ensures Outcome(parent.State(), error) == Run(old(parent.State()), list, |list|, EnvOf(parent, registry))
  {
    ghost var start := parent.State();
    ghost var env := EnvOf(parent, registry);
    var i := 0;
    while i < |list|
      invariant 0 <= i <= |list|
      invariant Run(start, list, i, env) == Outcome(parent.State(), None)
    {
      error := ResolveNext(parent, start, list, i, registry);
      if error.Some? {
        RunErrorPersists(start, list, i + 1, |list|, env);
        return;
      }
      i := i + 1;
    }
    error := None;
  }

  /** `parent.remove(...allObjects.filter(x => x.__shouldRemove))`, skipped when
      nothing is marked. */
  method SweepMarked(parent: Container, all: seq<ObjId>)
    modifies parent
    ensures parent.State() == Sweep(old(parent.State()), all)
  {
    var toRemove: seq<ObjId> := [];
    var j := 0;
    while j < |all|
      invariant 0 <= j <= |all|
      invariant toRemove == MarkedAmong(all[..j], parent.marked)
    {
      assert all[..j + 1][..j] == all[..j];
      if all[j] in parent.marked {
        toRemove := toRemove + [all[j]];
      }
      j := j + 1;
    }
    assert all[..|all|] == all;
    if |toRemove| > 0 {
      parent.Remove(toRemove);
    }
  }

  /** `render(comp, parent, app)`: flatten, mark every present object, resolve
      the leaves in order, then remove what is still marked in one call. */
  method Render(root: Node, parent: Container, registry: set<string>) returns (error: Option<string>)
    modifies parent
    ensures Outcome(parent.State(), error) == RenderPass(old(parent.State()), root, EnvOf(parent, registry))
  {
    ghost var sc := parent.State();
    ghost var env := EnvOf(parent, registry);
    var list := CollectInto(root, map[], []);
    assert list == Flatten(root);
    var allObjects := parent.GetObjects();
    var all := Ids(allObjects);
    assert all == Ids(sc.objs);
    MarkEach(parent, all);
    error := ResolveAll(parent, list, registry);
    ghost var r := Run(MarkAll(sc, all), list, |list|, env);
    assert Outcome(parent.State(), error) == r;
    if error.None? {
      SweepMarked(parent, all);
    }
  }
}
