/** The reconciliation engine as functions on the state of one parent
    container (`render`, `shouldCreate`, `shouldUpdate`, index.js:73-87, 141-255). Each
    collaborator call the source makes (`insertAt`, `remove`, `set`,
    `setCoords`, ...) is one function from the container's state to its next
    state, and one leaf's resolution is their composition in the order of the
    source. The `Canvas` module's methods are proved to do exactly this. */
module Scene {
  import opened Values
  import opened Names
  import opened Tree

  /** The identity of a live drawable object (what `===` compares). */
  type ObjId = nat

  /** The constructor argument convention (index.js:208-214). */
  datatype CtorArg = EmptyChildren | Content(value: Value) | Options(props: Props)

  /** A live drawable: its identity, the three fields stamped at creation
      (`__key`, `__type`, `__props`) and the properties assigned to it so far. */
  datatype Obj = Obj(id: ObjId, key: Value, kind: string, stamp: Props, attrs: Props)

  /** A call into the canvas library, recorded in order. */
  datatype Call =
    | Construct(id: ObjId, typeName: string, arg: CtorArg)
    | InsertAt(id: ObjId, index: nat)
    | Remove(ids: seq<ObjId>)
    | Set(id: ObjId, props: Props)
    | SetCoords(id: ObjId)
    | InvokeRef(ref: Value, id: ObjId)
    | CalcOffset
    | DiscardActive
    | RequestRedraw

  /** Everything the engine reads or changes about one parent container:
      its objects in order, the ids whose `__shouldRemove` flag is set (the flag
      stays on an object after it leaves the container), the next fresh identity,
      `__childAdded`, the surface's `__configs` and active selection, and the
      calls made so far. */
  datatype Scene = Scene(
    objs: seq<Obj>,
    marked: set<ObjId>,
    nextId: ObjId,
    childAdded: bool,
    configs: Value,
    active: seq<ObjId>,
    log: seq<Call>)

  /** What stays fixed during a pass: `canvas.selection`, whether the parent's
      `__type` is "group", the drawable type names the library provides, and the
      prop names treated as event handlers (the container passes `EventHash`). */
  datatype Env = Env(selection: bool, isGroup: bool, registry: set<string>, events: set<string>)

  /** No drawable is in the container twice. */
  ghost predicate DistinctIds(objs: seq<Obj>) {
    forall j, k :: 0 <= j < k < |objs| ==> objs[j].id != objs[k].id
  }

  /** Ids are distinct, every id in use is below `nextId`. */
  ghost predicate ValidScene(sc: Scene) {
    && DistinctIds(sc.objs)
    && (forall j :: 0 <= j < |sc.objs| ==> sc.objs[j].id < sc.nextId)
    && (forall id :: id in sc.marked ==> id < sc.nextId)
  }

  function Ids(objs: seq<Obj>): (r: seq<ObjId>)
    ensures |r| == |objs| && forall k :: 0 <= k < |objs| ==> r[k] == objs[k].id
  {
    seq(|objs|, k requires 0 <= k < |objs| => objs[k].id)
  }

  function SetOf(ids: seq<ObjId>): set<ObjId> {
    set id | id in ids
  }

  // ---------------------------------------------------------------------------
  // Preparing one leaf's props (index.js:148-159, 170-175, 181-191, 202-204)

  /** An explicit key is a `key` prop that is neither `null` nor `undefined`. */
  function ExplicitKey(own: Props): Option<Value> {
    if "key" in own && own["key"] != Undefined && own["key"] != Null then Some(own["key"]) else None
  }

  /** Without an explicit key, the leaf's index is its key. */
  function EffectiveKey(key: Option<Value>, index: nat): Value {
    if key.Some? then key.value else Num(index)
  }

  /** `props.selectable === false ? false : props.selectable || canvas.selection` */
  function SelectableValue(props: Props, selection: bool): Value {
    var s := Lookup(props, "selectable");
    if s == Bool(false) then Bool(false) else if Truthy(s) then s else Bool(selection)
  }

  /** The selection defaults, overridden by the explicit props. */
  function WithDefaults(props: Props, selection: bool): Props {
    var s := Truthy(SelectableValue(props, selection));
    map["selectable" := Bool(s), "controls" := Bool(s),
        "hoverCursor" := Str(if s then "move" else "default")] + props
  }

  /** The props a leaf is reconciled with: `key` and `ref` stripped, defaults added. */
  function Prepared(own: Props, selection: bool): Props {
    WithDefaults(own - {"key", "ref"}, selection)
  }

  function UnsupportedMessage(typeName: string): string {
    "Element type " + typeName + " is not supported"
  }

  /** `parent.item(index)` */
  function ItemAt(objs: seq<Obj>, index: nat): Option<Obj> {
    if index < |objs| then Some(objs[index]) else None
  }

  /** `parent.getObjects().find(x => x.__key === key)`, as an index. */
  function FirstWithKey(objs: seq<Obj>, key: Value): (r: Option<nat>)
    ensures r.Some? ==> r.value < |objs|
  {
    if objs == [] then None
    else if objs[0].key == key then Some(0)
    else
      var rest := FirstWithKey(objs[1..], key);
      if rest.Some? then Some(rest.value + 1) else None
  }

  /** The search finds the first object with the key, and none when no object has it. */
  lemma {:induction false} FirstWithKeyIsFirst(objs: seq<Obj>, key: Value)
    ensures var r := FirstWithKey(objs, key);
      && (r.Some? ==> objs[r.value].key == key && forall j :: 0 <= j < r.value ==> objs[j].key != key)
      && (r.None? ==> forall j :: 0 <= j < |objs| ==> objs[j].key != key)
    decreases objs
  {
    if objs != [] && objs[0].key != key {
      FirstWithKeyIsFirst(objs[1..], key);
      var rest := FirstWithKey(objs[1..], key);
      forall j | 1 <= j < |objs| ensures objs[j] == objs[1..][j - 1] { }
    }
  }

  /** The object a leaf is matched with: by explicit key anywhere in the
      container, otherwise the object at the leaf's own index. */
  function Match(objs: seq<Obj>, key: Option<Value>, index: nat): Option<Obj> {
    if key.Some? then
      var j := FirstWithKey(objs, key.value);
      if j.Some? then Some(objs[j.value]) else None
    else ItemAt(objs, index)
  }

  /** `shouldCreate` */
  predicate ShouldCreate(matched: Option<Obj>, key: Value, kind: string) {
    matched.None? || matched.value.kind != kind || matched.value.key != key
  }

  /** `shouldUpdate`: some new prop is not deep-equal to the stamped one (a
      stamped prop that is missing reads as `undefined`). */
  predicate HasChange(props: Props, stamp: Props) {
    exists k :: k in props && props[k] != Lookup(stamp, k)
  }

  /** The props assigned as event handlers: those named in the event table. */
  function EventProps(props: Props, events: set<string>): Props {
    map k | k in props && k in events :: props[k]
  }

  /** The props passed to the drawable's setter: all the others. */
  function StructuralProps(props: Props, events: set<string>): Props {
    map k | k in props && k !in events :: props[k]
  }

  /** Whether a prop that moves or resizes the object is present. */
  predicate NeedsCoords(structural: Props) {
    "left" in structural || "top" in structural || "width" in structural || "height" in structural
  }

  /** Groups start empty, text takes its text, images their source, and every
      other type the structural props. */
  function CtorArgFor(kind: string, structural: Props): CtorArg {
    if kind == "group" then EmptyChildren
    else if kind == "text" then Content(Lookup(structural, "text"))
    else if kind == "image" then Content(Lookup(structural, "src"))
    else Options(structural)
  }

  // ---------------------------------------------------------------------------
  // Object-list operations

  /** `objects.splice(index, 0, o)`: past the end it appends. */
  function Insert(objs: seq<Obj>, o: Obj, index: nat): (r: seq<Obj>)
    ensures |r| == |objs| + 1
  {
    if index <= |objs| then objs[..index] + [o] + objs[index..] else objs + [o]
  }

  /** Inserting adds exactly `o`, at the index or, past the end, last. */
  lemma InsertMembers(objs: seq<Obj>, o: Obj, index: nat)
    ensures forall x :: x in Insert(objs, o, index) <==> x in objs || x == o
    ensures Insert(objs, o, index)[if index <= |objs| then index else |objs|] == o
    ensures index >= |objs| ==> Insert(objs, o, index) == objs + [o]
  {
    if index <= |objs| {
      assert objs == objs[..index] + objs[index..];
    }
  }

  /** The objects whose id is not listed, in order. */
  function Without(objs: seq<Obj>, ids: seq<ObjId>): (r: seq<Obj>)
    ensures |r| <= |objs|
  {
    if objs == [] then []
    else (if objs[0].id in ids then [] else [objs[0]]) + Without(objs[1..], ids)
  }

  /** Exactly the objects whose id is not listed remain. */
  lemma {:induction false} WithoutMembers(objs: seq<Obj>, ids: seq<ObjId>)
    ensures forall x :: x in Without(objs, ids) <==> x in objs && x.id !in ids
    decreases objs
  {
    if objs != [] {
      WithoutMembers(objs[1..], ids);
      assert objs == [objs[0]] + objs[1..];
    }
  }

  /** Properties assigned onto the object with the given id. */
  function Assign(objs: seq<Obj>, id: ObjId, props: Props): (r: seq<Obj>)
    ensures |r| == |objs|
  {
    seq(|objs|, k requires 0 <= k < |objs| =>
      if objs[k].id == id then objs[k].(attrs := objs[k].attrs + props) else objs[k])
  }

  /** The two lists hold the same drawables in the same order, with the same
      identity fields (`__key`, `__type`, `__props`). */
  ghost predicate SameIdentities(a: seq<Obj>, b: seq<Obj>) {
    && |a| == |b|
    && forall k :: 0 <= k < |a| ==>
         a[k].id == b[k].id && a[k].key == b[k].key && a[k].kind == b[k].kind && a[k].stamp == b[k].stamp
  }

  lemma SameIdentitiesTrans(a: seq<Obj>, b: seq<Obj>, c: seq<Obj>)
    requires SameIdentities(a, b) && SameIdentities(b, c)
    ensures SameIdentities(a, c)
  {
  }

  /** Assigning properties changes no identity field. */
  lemma AssignKeeps(objs: seq<Obj>, id: ObjId, props: Props)
    ensures SameIdentities(Assign(objs, id, props), objs)
    ensures Ids(Assign(objs, id, props)) == Ids(objs)
  {
  }

  /** Assigning properties leaves every other object exactly as it was. */
  lemma AssignOnlyTouches(objs: seq<Obj>, id: ObjId, props: Props)
    ensures forall k :: 0 <= k < |objs| && objs[k].id != id ==> Assign(objs, id, props)[k] == objs[k]
  {
  }

  // ---------------------------------------------------------------------------
  // One function per collaborator call

  /** A drawable made by `new constr(arg)` and stamped with its identity fields. */
  function NewObj(id: ObjId, key: Value, kind: string, stamp: Props, arg: CtorArg): Obj {
    Obj(id, key, kind, stamp, if arg.Options? then arg.props else map[])
  }

  function ConstructS(sc: Scene, typeName: string, arg: CtorArg): Scene {
    sc.(nextId := sc.nextId + 1, log := sc.log + [Construct(sc.nextId, typeName, arg)])
  }

  function InsertS(sc: Scene, o: Obj, index: nat): Scene {
    sc.(objs := Insert(sc.objs, o, index), log := sc.log + [InsertAt(o.id, index)])
  }

  function RemoveS(sc: Scene, ids: seq<ObjId>): Scene {
    sc.(objs := Without(sc.objs, ids), log := sc.log + [Remove(ids)])
  }

  /** `obj.set(objProps)` */
  function SetS(sc: Scene, id: ObjId, props: Props): Scene {
    sc.(objs := Assign(sc.objs, id, props), log := sc.log + [Set(id, props)])
  }

  /** `Object.assign(obj, objEvents)`: a plain field write, no call. */
  function AssignS(sc: Scene, id: ObjId, props: Props): Scene {
    sc.(objs := Assign(sc.objs, id, props))
  }

  function CoordsS(sc: Scene, id: ObjId): Scene {
    sc.(log := sc.log + [SetCoords(id)])
  }

  function RefS(sc: Scene, ref: Value, id: ObjId): Scene {
    sc.(log := sc.log + [InvokeRef(ref, id)])
  }

  /** The local `update()` of index.js:193-200. */
  function ApplyS(sc: Scene, id: ObjId, structural: Props, events: Props): Scene {
    AssignS(SetS(sc, id, structural), id, events)
  }

  /** Clear the removal mark, recalculate coordinates if asked, call `ref`. */
  function FinishS(sc: Scene, id: ObjId, coords: bool, ref: Value): Scene {
    var s1 := sc.(marked := sc.marked - {id});
    var s2 := if coords then CoordsS(s1, id) else s1;
    if Truthy(ref) then RefS(s2, ref, id) else s2
  }

  // ---------------------------------------------------------------------------
  // One leaf, one pass

  /** A new drawable replaces whatever was matched: constructed, inserted at the
      leaf's index, the displaced object (if any) removed, then updated
      (index.js:206-236). */
  function CreateBranch(sc: Scene, typeName: string, arg: CtorArg, effKey: Value, kind: string,
                        props: Props, index: nat, isGroup: bool, matched: Option<Obj>,
                        structural: Props, events: Props, ref: Value): Scene
  {
    var o := NewObj(sc.nextId, effKey, kind, props, arg);
    FinishS(ApplyS(Placed(sc, typeName, arg, o, index, isGroup, matched), o.id, structural, events),
            o.id, true, ref)
  }

  /** Construct `o`, insert it, flag the group, remove the displaced object. */
  function Placed(sc: Scene, typeName: string, arg: CtorArg, o: Obj, index: nat,
                  isGroup: bool, matched: Option<Obj>): Scene
  {
    var s1 := InsertS(ConstructS(sc, typeName, arg), o, index);
    var s2 := if isGroup then s1.(childAdded := true) else s1;
    if matched.Some? then RemoveS(s2, [matched.value.id]) else s2
  }

  /** The matched drawable is kept and updated only when a prop changed
      (index.js:237-239). */
  function ReuseBranch(sc: Scene, id: ObjId, changed: bool, structural: Props, events: Props,
                       coords: bool, ref: Value): Scene
  {
    var s1 := if changed then ApplyS(sc, id, structural, events) else sc;
    FinishS(s1, id, coords, ref)
  }

  /** The body of `list.forEach((comp, index) => ...)`. An unsupported type
      throws before anything is changed for this leaf. */
  function Step(sc: Scene, leaf: Leaf, index: nat, env: Env): Result<Scene> {
    var key := ExplicitKey(leaf.props);
    var ref := Lookup(leaf.props, "ref");
    var props := Prepared(leaf.props, env.selection);
    var typeName := NormalizeName(leaf.kind);
    if typeName !in env.registry then Err(UnsupportedMessage(typeName))
    else
      var matched := Match(sc.objs, key, index);
      var effKey := EffectiveKey(key, index);
      var structural := StructuralProps(props, env.events);
      var events := EventProps(props, env.events);
      if ShouldCreate(matched, effKey, leaf.kind) then
        Ok(CreateBranch(sc, typeName, CtorArgFor(leaf.kind, structural), effKey, leaf.kind, props,
                        index, env.isGroup, matched, structural, events, ref))
      else
        Ok(ReuseBranch(sc, matched.value.id, HasChange(props, matched.value.stamp),
                       structural, events, NeedsCoords(structural), ref))
  }

  /** The state after a pass, and the message of the exception it threw, if any. */
  datatype Outcome = Outcome(scene: Scene, error: Option<string>)

  /** The first `n` leaves, in order; after an exception nothing more happens. */
  function Run(sc: Scene, leaves: seq<Leaf>, n: nat, env: Env): Outcome
    requires n <= |leaves|
  {
    if n == 0 then Outcome(sc, None)
    else Next(Run(sc, leaves, n - 1, env), leaves[n - 1], n - 1, env)
  }

  /** One more leaf after what the pass has done so far. */
  function Next(prev: Outcome, leaf: Leaf, index: nat, env: Env): Outcome {
    if prev.error.Some? then prev
    else match Step(prev.scene, leaf, index, env)
      case Err(m) => Outcome(prev.scene, Some(m))
      case Ok(s) => Outcome(s, None)
  }

  /** Once a pass has thrown, later leaves change nothing. */
  lemma {:induction false} RunErrorPersists(sc: Scene, leaves: seq<Leaf>, n: nat, m: nat, env: Env)
    requires n <= m <= |leaves|
    requires Run(sc, leaves, n, env).error.Some?
    ensures Run(sc, leaves, m, env) == Run(sc, leaves, n, env)
    decreases m - n
  {
    if n < m {
      RunErrorPersists(sc, leaves, n, m - 1, env);
    }
  }

  /** `allObjects.forEach(x => (x.__shouldRemove = true))` */
  function MarkAll(sc: Scene, ids: seq<ObjId>): Scene {
    sc.(marked := sc.marked + SetOf(ids))
  }

  /** `allObjects.filter(x => x.__shouldRemove)`, as ids. */
  function MarkedAmong(ids: seq<ObjId>, marked: set<ObjId>): (r: seq<ObjId>)
    ensures forall x :: x in r <==> x in ids && x in marked
  {
    if ids == [] then []
    else
      var last := ids[|ids| - 1];
      MarkedAmong(ids[..|ids| - 1], marked) + (if last in marked then [last] else [])
  }

  /** One batched removal of the objects still marked, if there are any. */
  function Sweep(sc: Scene, all: seq<ObjId>): Scene {
    var t := MarkedAmong(all, sc.marked);
    if |t| > 0 then RemoveS(sc, t) else sc
  }

  /** A render pass over already-flattened leaves. */
  function RenderLeaves(sc: Scene, leaves: seq<Leaf>, env: Env): Outcome {
    var all := Ids(sc.objs);
    var r := Run(MarkAll(sc, all), leaves, |leaves|, env);
    if r.error.Some? then r else Outcome(Sweep(r.scene, all), None)
  }

  /** `render(comp, parent, app)` */
  function RenderPass(sc: Scene, root: Node, env: Env): Outcome {
    RenderLeaves(sc, Flatten(root), env)
  }
}
