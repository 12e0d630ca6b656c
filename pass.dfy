/** What a whole render pass promises (index.js:141-255): it stops at the
    first unsupported type without removing anything, every object left after
    a successful pass was claimed by one of its leaves, so there are never more
    objects than leaves, and rendering the same leaves again changes no object. */
module Pass {
  import opened Values
  import opened Names
  import opened Tree
  import opened Scene
  import opened Reconcile

  // ---------------------------------------------------------------------------
  // Claims

  /** The object a leaf ends up with: the fresh one when it creates, the
      matched one otherwise. */
  ghost function Claimed(sc: Scene, leaf: Leaf, index: nat): ObjId {
    var key := ExplicitKey(leaf.props);
    var m := Match(sc.objs, key, index);
    if ShouldCreate(m, EffectiveKey(key, index), leaf.kind) then sc.nextId else m.value.id
  }

  /** The object one more leaf claims: none once the pass has thrown or when
      the leaf throws. */
  ghost function ClaimOf(prev: Outcome, leaf: Leaf, index: nat, env: Env): seq<ObjId> {
    if prev.error.None? && Step(prev.scene, leaf, index, env).Ok?
    then [Claimed(prev.scene, leaf, index)] else []
  }

  /** The objects claimed by the first `n` leaves of a pass, one per leaf that
      did not throw. */
  ghost function Claims(sc: Scene, leaves: seq<Leaf>, n: nat, env: Env): seq<ObjId>
    requires n <= |leaves|
  {
    if n == 0 then []
    else Claims(sc, leaves, n - 1, env) + ClaimOf(Run(sc, leaves, n - 1, env), leaves[n - 1], n - 1, env)
  }

  lemma IdsWitness(objs: seq<Obj>, x: ObjId)
    requires x in Ids(objs)
    ensures exists o :: o in objs && o.id == x
  {
    var j :| 0 <= j < |objs| && Ids(objs)[j] == x;
    assert objs[j] in objs;
  }

  lemma DistinctIdsOf(a: seq<Obj>, b: seq<Obj>)
    requires Ids(a) == Ids(b) && DistinctIds(a)
    ensures DistinctIds(b)
  {
    forall j, k | 0 <= j < k < |b| ensures b[j].id != b[k].id {
      assert b[j].id == Ids(b)[j] == a[j].id && b[k].id == Ids(b)[k] == a[k].id;
    }
  }

  /** The create branch keeps the scene valid and brings in only the fresh id. */
  lemma CreateBranchValid(sc: Scene, typeName: string, arg: CtorArg, effKey: Value, kind: string,
                          props: Props, index: nat, isGroup: bool, matched: Option<Obj>,
                          structural: Props, events: Props, ref: Value)
    requires ValidScene(sc)
    requires matched.Some? ==> matched.value in sc.objs
    ensures var r := CreateBranch(sc, typeName, arg, effKey, kind, props, index, isGroup, matched, structural, events, ref);
      && ValidScene(r)
      && r.nextId == sc.nextId + 1
      && r.marked == sc.marked - {sc.nextId}
      && (forall x :: x in Ids(r.objs) ==> x in Ids(sc.objs) || x == sc.nextId)
  {
    var o := NewObj(sc.nextId, effKey, kind, props, arg);
    var p := Placed(sc, typeName, arg, o, index, isGroup, matched);
    PlacedFacts(sc, typeName, arg, o, index, isGroup, matched);
    var r := FinishS(ApplyS(p, o.id, structural, events), o.id, true, ref);
    CreateObjs(p, o, structural, events, ref, matched);
    DistinctIdsOf(p.objs, r.objs);
    IdsFrom(p.objs, sc.objs, o);
    IdsBelow(sc.objs, sc.nextId);
    BelowIds(r.objs, sc.nextId + 1);
  }

  /** Objects drawn from `base` or equal to `o` have ids from `base` or `o`'s. */
  lemma IdsFrom(objs: seq<Obj>, base: seq<Obj>, o: Obj)
    requires forall x :: x in objs ==> x in base || x == o
    ensures forall x :: x in Ids(objs) ==> x in Ids(base) || x == o.id
  {
    forall x | x in Ids(objs) ensures x in Ids(base) || x == o.id {
      IdsWitness(objs, x);
      var y :| y in objs && y.id == x;
      if y in base {
        IdsMembership(base, y);
      }
    }
  }

  lemma IdsBelow(objs: seq<Obj>, n: nat)
    requires forall j :: 0 <= j < |objs| ==> objs[j].id < n
    ensures forall x :: x in Ids(objs) ==> x < n
  {
    forall x | x in Ids(objs) ensures x < n {
      var j :| 0 <= j < |objs| && Ids(objs)[j] == x;
    }
  }

  lemma BelowIds(objs: seq<Obj>, n: nat)
    requires forall x :: x in Ids(objs) ==> x < n
    ensures forall j :: 0 <= j < |objs| ==> objs[j].id < n
  {
    forall j | 0 <= j < |objs| ensures objs[j].id < n {
      assert Ids(objs)[j] == objs[j].id && Ids(objs)[j] in Ids(objs);
    }
  }

  /** One supported leaf keeps the scene valid, clears the mark of the object it
      claims and of no other, and brings in no object but the one it claims. */
  lemma StepKeepsValid(sc: Scene, leaf: Leaf, index: nat, env: Env)
    requires ValidScene(sc)
    requires Step(sc, leaf, index, env).Ok?
    ensures var r := Step(sc, leaf, index, env).value;
      && ValidScene(r)
      && r.nextId >= sc.nextId
      && r.marked == sc.marked - {Claimed(sc, leaf, index)}
      && (forall x :: x in Ids(r.objs) ==> x in Ids(sc.objs) || x == Claimed(sc, leaf, index))
  {
    var key := ExplicitKey(leaf.props);
    var m := Match(sc.objs, key, index);
    var props := Prepared(leaf.props, env.selection);
    var structural := StructuralProps(props, env.events);
    var effKey := EffectiveKey(key, index);
    var ref := Lookup(leaf.props, "ref");
    MatchIsPresent(sc.objs, key, index);
    if ShouldCreate(m, effKey, leaf.kind) {
      var arg := CtorArgFor(leaf.kind, structural);
      assert Step(sc, leaf, index, env) ==
        Ok(CreateBranch(sc, NormalizeName(leaf.kind), arg, effKey, leaf.kind, props, index, env.isGroup, m,
                        structural, EventProps(props, env.events), ref));
      CreateBranchValid(sc, NormalizeName(leaf.kind), arg, effKey, leaf.kind, props, index, env.isGroup, m,
                        structural, EventProps(props, env.events), ref);
    } else {
      StepReuse(sc, leaf, index, env);
      var r := Step(sc, leaf, index, env).value;
      DistinctIdsOf(sc.objs, r.objs);
      forall j | 0 <= j < |r.objs| ensures r.objs[j].id < r.nextId {
        assert r.objs[j].id == Ids(r.objs)[j] == Ids(sc.objs)[j] == sc.objs[j].id;
      }
    }
  }

  /** What holds after `n` leaves of a pass from `sc` with claims `c`: the scene
      is valid, the marks cleared are exactly those of the claimed objects, every
      object present was present before or was claimed, and without an exception
      every leaf claimed one object. */
  ghost predicate ClaimsHold(sc: Scene, r: Outcome, c: seq<ObjId>, n: nat) {
    && ValidScene(r.scene)
    && r.scene.marked == sc.marked - SetOf(c)
    && (forall x :: x in Ids(r.scene.objs) ==> x in Ids(sc.objs) || x in c)
    && (r.error.None? ==> |c| == n)
    && r.scene.configs == sc.configs && r.scene.active == sc.active
  }

  /** A leaf's step touches neither the configuration nor the selection. */
  lemma StepKeepsSurface(sc: Scene, leaf: Leaf, index: nat, env: Env)
    ensures var st := Step(sc, leaf, index, env);
      st.Ok? ==> st.value.configs == sc.configs && st.value.active == sc.active
  {
    var key := ExplicitKey(leaf.props);
    var ref := Lookup(leaf.props, "ref");
    var props := Prepared(leaf.props, env.selection);
    var typeName := NormalizeName(leaf.kind);
    if typeName in env.registry {
      var matched := Match(sc.objs, key, index);
      var effKey := EffectiveKey(key, index);
      var structural := StructuralProps(props, env.events);
      var events := EventProps(props, env.events);
      if ShouldCreate(matched, effKey, leaf.kind) {
        CreateKeepsSurface(sc, typeName, CtorArgFor(leaf.kind, structural), effKey, leaf.kind, props,
                           index, env.isGroup, matched, structural, events, ref);
      } else {
        ReuseKeepsSurface(sc, matched.value.id, HasChange(props, matched.value.stamp),
                          structural, events, NeedsCoords(structural), ref);
      }
    }
  }

  lemma CreateKeepsSurface(sc: Scene, typeName: string, arg: CtorArg, effKey: Value, kind: string,
                           props: Props, index: nat, isGroup: bool, matched: Option<Obj>,
                           structural: Props, events: Props, ref: Value)
    ensures var r := CreateBranch(sc, typeName, arg, effKey, kind, props, index, isGroup, matched, structural, events, ref);
      r.configs == sc.configs && r.active == sc.active
  {
  }

  lemma ReuseKeepsSurface(sc: Scene, id: ObjId, changed: bool, structural: Props, events: Props,
                          coords: bool, ref: Value)
    ensures var r := ReuseBranch(sc, id, changed, structural, events, coords, ref);
      r.configs == sc.configs && r.active == sc.active
  {
  }

  /** The claims invariant, carried over one more leaf. */
  lemma ClaimsStep(sc: Scene, prev: Outcome, leaf: Leaf, index: nat, env: Env, c0: seq<ObjId>)
    requires ClaimsHold(sc, prev, c0, index)
    ensures ClaimsHold(sc, Next(prev, leaf, index, env), c0 + ClaimOf(prev, leaf, index, env), index + 1)
  {
    if prev.error.None? && Step(prev.scene, leaf, index, env).Ok? {
      StepKeepsValid(prev.scene, leaf, index, env);
      StepKeepsSurface(prev.scene, leaf, index, env);
      var x := Claimed(prev.scene, leaf, index);
      assert SetOf(c0 + [x]) == SetOf(c0) + {x};
    } else {
      assert c0 + ClaimOf(prev, leaf, index, env) == c0;
    }
  }

  /** Along a pass: the scene stays valid, the marks cleared are exactly those
      of the claimed objects, every object present was present before or was
      claimed, and without an exception every leaf claims one object. */
  lemma {:induction false} RunClaims(sc: Scene, leaves: seq<Leaf>, n: nat, env: Env)
    requires n <= |leaves|
    requires ValidScene(sc)
    ensures ClaimsHold(sc, Run(sc, leaves, n, env), Claims(sc, leaves, n, env), n)
    decreases n
  {
    if n == 0 {
      assert SetOf([]) == {};
    } else {
      var prev := Run(sc, leaves, n - 1, env);
      var c0 := Claims(sc, leaves, n - 1, env);
      RunClaims(sc, leaves, n - 1, env);
      ClaimsStep(sc, prev, leaves[n - 1], n - 1, env, c0);
      assert Run(sc, leaves, n, env) == Next(prev, leaves[n - 1], n - 1, env);
      assert Claims(sc, leaves, n, env) == c0 + ClaimOf(prev, leaves[n - 1], n - 1, env);
    }
  }

  /** Leaves that are all supported never throw. */
  lemma {:induction false} RunSupported(sc: Scene, leaves: seq<Leaf>, n: nat, env: Env)
    requires n <= |leaves|
    requires forall i :: 0 <= i < n ==> SupportedAt(leaves, i, env.registry)
    ensures Run(sc, leaves, n, env).error.None?
    decreases n
  {
    if n > 0 {
      RunSupported(sc, leaves, n - 1, env);
      NextSupported(sc, leaves, n, env);
    }
  }

  /** The `n`-th leaf does not throw when its type is supported. */
  lemma NextSupported(sc: Scene, leaves: seq<Leaf>, n: nat, env: Env)
    requires 0 < n <= |leaves| && Run(sc, leaves, n - 1, env).error.None?
    requires SupportedAt(leaves, n - 1, env.registry)
    ensures Run(sc, leaves, n, env).error.None?
  {
    StepFailsOnlyWhenUnsupported(Run(sc, leaves, n - 1, env).scene, leaves[n - 1], n - 1, env);
  }

  lemma NextUnsupported(prev: Outcome, leaf: Leaf, index: nat, env: Env)
    requires prev.error.None? && NormalizeName(leaf.kind) !in env.registry
    ensures Next(prev, leaf, index, env) == Outcome(prev.scene, Some(UnsupportedMessage(NormalizeName(leaf.kind))))
  {
    StepFailsOnlyWhenUnsupported(prev.scene, leaf, index, env);
  }

  // ---------------------------------------------------------------------------
  // Whole passes

  /** The leaf loop ends at the first unsupported type, with its message. */
  lemma RunStopsAtFirstUnsupported(start: Scene, leaves: seq<Leaf>, k: nat, env: Env)
    requires k < |leaves|
    requires forall i :: 0 <= i < k ==> SupportedAt(leaves, i, env.registry)
    requires NormalizeName(leaves[k].kind) !in env.registry
    ensures Run(start, leaves, |leaves|, env) ==
      Outcome(Run(start, leaves, k, env).scene, Some(UnsupportedMessage(NormalizeName(leaves[k].kind))))
  {
    StopsFrom(start, leaves, k, |leaves|, env);
  }

  /** After the leaf that throws, every later prefix of the pass ends the same way. */
  lemma {:induction false} StopsFrom(start: Scene, leaves: seq<Leaf>, k: nat, m: nat, env: Env)
    requires k < m <= |leaves|
    requires forall i :: 0 <= i < k ==> SupportedAt(leaves, i, env.registry)
    requires NormalizeName(leaves[k].kind) !in env.registry
    ensures Run(start, leaves, m, env) ==
      Outcome(Run(start, leaves, k, env).scene, Some(UnsupportedMessage(NormalizeName(leaves[k].kind))))
    decreases m
  {
    if m == k + 1 {
      ThrowsAt(start, leaves, k, env);
    } else {
      StopsFrom(start, leaves, k, m - 1, env);
      assert Run(start, leaves, m, env) == Next(Run(start, leaves, m - 1, env), leaves[m - 1], m - 1, env);
    }
  }

  lemma ThrowsAt(start: Scene, leaves: seq<Leaf>, k: nat, env: Env)
    requires k < |leaves|
    requires forall i :: 0 <= i < k ==> SupportedAt(leaves, i, env.registry)
    requires NormalizeName(leaves[k].kind) !in env.registry
    ensures Run(start, leaves, k + 1, env) ==
      Outcome(Run(start, leaves, k, env).scene, Some(UnsupportedMessage(NormalizeName(leaves[k].kind))))
  {
    RunSupported(start, leaves, k, env);
    NextUnsupported(Run(start, leaves, k, env), leaves[k], k, env);
  }

  /** A pass that meets an unsupported type throws its message after resolving
      the leaves before it, and removes nothing more: the objects no leaf
      claimed stay in the container, still marked. */
  lemma StopsAtFirstUnsupported(sc: Scene, leaves: seq<Leaf>, k: nat, env: Env)
    requires k < |leaves|
    requires forall i :: 0 <= i < k ==> SupportedAt(leaves, i, env.registry)
    requires NormalizeName(leaves[k].kind) !in env.registry
    ensures var start := MarkAll(sc, Ids(sc.objs));
      RenderLeaves(sc, leaves, env) ==
        Outcome(Run(start, leaves, k, env).scene, Some(UnsupportedMessage(NormalizeName(leaves[k].kind))))
  {
    RunStopsAtFirstUnsupported(MarkAll(sc, Ids(sc.objs)), leaves, k, env);
  }

  lemma {:induction false} SetOfCard(s: seq<ObjId>)
    ensures |SetOf(s)| <= |s|
    decreases s
  {
    if s != [] {
      var init := s[..|s| - 1];
      SetOfCard(init);
      assert s == init + [s[|s| - 1]];
      assert SetOf(s) == SetOf(init) + {s[|s| - 1]};
    }
  }

  /** Distinct objects whose ids all lie in `ids` are no more than `ids` has elements. */
  lemma {:induction false} DistinctWithin(objs: seq<Obj>, ids: set<ObjId>)
    requires DistinctIds(objs)
    requires forall x :: x in Ids(objs) ==> x in ids
    ensures |objs| <= |ids|
    decreases objs
  {
    if objs != [] {
      var tail := objs[1..];
      assert Ids(objs)[0] == objs[0].id;
      assert DistinctIds(tail) by {
        forall j, k | 0 <= j < k < |tail| ensures tail[j].id != tail[k].id {
          assert tail[j] == objs[j + 1] && tail[k] == objs[k + 1];
        }
      }
      forall x | x in Ids(tail) ensures x in ids - {objs[0].id} {
        var k :| 0 <= k < |tail| && Ids(tail)[k] == x;
        assert Ids(objs)[k + 1] == x;
        assert objs[k + 1].id != objs[0].id;
      }
      DistinctWithin(tail, ids - {objs[0].id});
    }
  }

  /** After a successful pass every object in the container was claimed by one of
      the leaves: in particular every object present before that no leaf claimed
      is gone. So there are never more objects than leaves. */
  lemma SurvivorsWereClaimed(sc: Scene, leaves: seq<Leaf>, env: Env)
    requires ValidScene(sc)
    requires RenderLeaves(sc, leaves, env).error.None?
    ensures var f := RenderLeaves(sc, leaves, env).scene;
      var c := Claims(MarkAll(sc, Ids(sc.objs)), leaves, |leaves|, env);
      && ValidScene(f)
      && (forall x :: x in Ids(f.objs) ==> x in c)
      && |f.objs| <= |leaves|
  {
    var all := Ids(sc.objs);
    var start := MarkAll(sc, all);
    assert ValidScene(start) by {
      forall id | id in start.marked ensures id < start.nextId {
        if id in all {
          var j :| 0 <= j < |all| && all[j] == id;
        }
      }
    }
    RunClaims(start, leaves, |leaves|, env);
    var r := Run(start, leaves, |leaves|, env);
    var c := Claims(start, leaves, |leaves|, env);
    var t := MarkedAmong(all, r.scene.marked);
    var f := Sweep(r.scene, all);
    assert f == RenderLeaves(sc, leaves, env).scene;
    WithoutMembers(r.scene.objs, t);
    assert forall o :: o in f.objs ==> o in r.scene.objs && o.id !in t;
    if |t| > 0 {
      WithoutDistinct(r.scene.objs, t);
    }
    forall x | x in Ids(f.objs) ensures x in c {
      IdsWitness(f.objs, x);
      var o :| o in f.objs && o.id == x;
      IdsMembership(r.scene.objs, o);
      if x in all {
        assert x in start.marked;
        assert x !in r.scene.marked;
      }
    }
    forall j | 0 <= j < |f.objs| ensures f.objs[j].id < f.nextId {
      assert f.objs[j] in r.scene.objs;
      var k :| 0 <= k < |r.scene.objs| && r.scene.objs[k] == f.objs[j];
    }
    DistinctWithin(f.objs, SetOf(c));
    SetOfCard(c);
  }

  /** Objects created during the pass are never in the final removal: every
      object the leaf loop leaves in the container under an id it handed out
      itself is still there once the pass is over. */
  lemma CreatedSurviveSweep(sc: Scene, leaves: seq<Leaf>, env: Env)
    requires ValidScene(sc)
    ensures var r := Run(MarkAll(sc, Ids(sc.objs)), leaves, |leaves|, env);
      forall o :: o in r.scene.objs && o.id >= sc.nextId ==> o in RenderLeaves(sc, leaves, env).scene.objs
  {
    var all := Ids(sc.objs);
    var r := Run(MarkAll(sc, all), leaves, |leaves|, env);
    if r.error.None? {
      var t := MarkedAmong(all, r.scene.marked);
      WithoutMembers(r.scene.objs, t);
    }
  }

  /** Rendering nothing empties the container. */
  lemma EmptyTreeClears(sc: Scene, env: Env)
    requires ValidScene(sc)
    ensures RenderLeaves(sc, [], env).error.None?
    ensures RenderLeaves(sc, [], env).scene.objs == []
  {
    SurvivorsWereClaimed(sc, [], env);
  }

  // ---------------------------------------------------------------------------
  // Rendering the same leaves again

  /** The key a leaf is matched and stamped with. */
  function LeafKey(leaves: seq<Leaf>, i: nat): Value
    requires i < |leaves|
  {
    EffectiveKey(ExplicitKey(leaves[i].props), i)
  }

  /** No two leaves share an effective key. */
  ghost predicate DistinctKeys(leaves: seq<Leaf>) {
    forall i, j :: 0 <= i < j < |leaves| ==> LeafKey(leaves, i) != LeafKey(leaves, j)
  }

  /** The library provides the drawable type of leaf `i`. */
  ghost predicate SupportedAt(leaves: seq<Leaf>, i: nat, registry: set<string>) {
    i < |leaves| && NormalizeName(leaves[i].kind) in registry
  }

  ghost predicate Supported(leaves: seq<Leaf>, registry: set<string>) {
    forall i :: 0 <= i < |leaves| ==> SupportedAt(leaves, i, registry)
  }

  /** The objects are those the first `n` leaves produce: one per leaf, in order,
      with the leaf's type and effective key, stamped with its prepared props. */
  ghost predicate LaidUpTo(objs: seq<Obj>, leaves: seq<Leaf>, n: nat, selection: bool) {
    && n <= |leaves| && |objs| == n
    && forall i :: 0 <= i < n ==> LaidAt(objs, leaves, i, selection)
  }

  /** Object `i` has leaf `i`'s type and effective key, stamped with its prepared props. */
  ghost predicate LaidAt(objs: seq<Obj>, leaves: seq<Leaf>, i: nat, selection: bool) {
    && i < |objs| && i < |leaves|
    && objs[i].kind == leaves[i].kind
    && objs[i].key == LeafKey(leaves, i)
    && objs[i].stamp == Prepared(leaves[i].props, selection)
  }

  ghost predicate Laid(objs: seq<Obj>, leaves: seq<Leaf>, selection: bool) {
    LaidUpTo(objs, leaves, |leaves|, selection)
  }

  /** The new calls are only coordinate recalculations and `ref` callbacks. */
  ghost predicate OnlyTouches(before: seq<Call>, after: seq<Call>) {
    && |before| <= |after| && after[..|before|] == before
    && forall k :: |before| <= k < |after| ==> after[k].SetCoords? || after[k].InvokeRef?
  }

  /** Against a laid-out list, each leaf finds its own object. */
  lemma LaidMatch(objs: seq<Obj>, leaves: seq<Leaf>, n: nat, selection: bool, i: nat)
    requires LaidUpTo(objs, leaves, n, selection) && DistinctKeys(leaves) && i < n
    ensures var key := ExplicitKey(leaves[i].props);
      && Match(objs, key, i) == Some(objs[i])
      && !ShouldCreate(Match(objs, key, i), EffectiveKey(key, i), leaves[i].kind)
  {
    var leaf := leaves[i];
    assert LaidAt(objs, leaves, i, selection);
    if ExplicitKey(leaf.props).Some? {
      forall i' | 0 <= i' < i ensures objs[i'].key != ExplicitKey(leaf.props).value {
        assert LaidAt(objs, leaves, i', selection);
        assert objs[i'].key == LeafKey(leaves, i') != LeafKey(leaves, i);
      }
      KeyedMatchAnywhere(Scene(objs, {}, 0, false, Undefined, [], []), leaf, i, i);
    } else {
      UnkeyedMatchesByIndex(Scene(objs, {}, 0, false, Undefined, [], []), leaf, i);
    }
  }

  /** Against the objects of the leaves before it, a leaf finds nothing. */
  lemma FreshMiss(objs: seq<Obj>, leaves: seq<Leaf>, n: nat, selection: bool)
    requires LaidUpTo(objs, leaves, n, selection) && DistinctKeys(leaves) && n < |leaves|
    ensures Match(objs, ExplicitKey(leaves[n].props), n).None?
  {
    var key := ExplicitKey(leaves[n].props);
    if key.Some? {
      FirstWithKeyIsFirst(objs, key.value);
      assert LeafKey(leaves, n) == key.value;
      forall j | 0 <= j < |objs| ensures objs[j].key != key.value {
        assert LaidAt(objs, leaves, j, selection);
        assert objs[j].key == LeafKey(leaves, j) != LeafKey(leaves, n);
      }
    }
  }

  /** `r` is `objs` with one more object at the end, stamped with the given key,
      type and props, and the objects before it keep their identity fields. */
  ghost predicate AppendedTo(r: seq<Obj>, objs: seq<Obj>, key: Value, kind: string, stamp: Props) {
    && |r| == |objs| + 1
    && (forall j :: 0 <= j < |objs| ==>
          r[j].key == objs[j].key && r[j].kind == objs[j].kind && r[j].stamp == objs[j].stamp)
    && r[|objs|].key == key && r[|objs|].kind == kind && r[|objs|].stamp == stamp
  }

  /** A leaf that finds nothing while standing just past the end appends its
      object, and the objects before it keep their identity fields. */
  lemma AppendCreate(sc: Scene, leaf: Leaf, index: nat, env: Env)
    requires NormalizeName(leaf.kind) in env.registry
    requires Match(sc.objs, ExplicitKey(leaf.props), index).None? && index == |sc.objs|
    ensures Step(sc, leaf, index, env).Ok?
    ensures AppendedTo(Step(sc, leaf, index, env).value.objs, sc.objs,
                       EffectiveKey(ExplicitKey(leaf.props), index), leaf.kind,
                       Prepared(leaf.props, env.selection))
  {
    var key := ExplicitKey(leaf.props);
    var props := Prepared(leaf.props, env.selection);
    var structural := StructuralProps(props, env.events);
    var arg := CtorArgFor(leaf.kind, structural);
    var effKey := EffectiveKey(key, index);
    var ref := Lookup(leaf.props, "ref");
    assert Step(sc, leaf, index, env) ==
      Ok(CreateBranch(sc, NormalizeName(leaf.kind), arg, effKey, leaf.kind, props, index, env.isGroup, None,
                      structural, EventProps(props, env.events), ref));
    AppendBranch(sc, NormalizeName(leaf.kind), arg, effKey, leaf.kind, props, env.isGroup,
                 structural, EventProps(props, env.events), ref);
  }

  /** The create branch at the end of the list, with nothing displaced. */
  lemma AppendBranch(sc: Scene, typeName: string, arg: CtorArg, effKey: Value, kind: string,
                     props: Props, isGroup: bool, structural: Props, events: Props, ref: Value)
    ensures AppendedTo(CreateBranch(sc, typeName, arg, effKey, kind, props, |sc.objs|, isGroup, None,
                                    structural, events, ref).objs, sc.objs, effKey, kind, props)
  {
    var o := NewObj(sc.nextId, effKey, kind, props, arg);
    InsertMembers(sc.objs, o, |sc.objs|);
    AppendAssigned(sc.objs, o, structural, events);
    assert CreateBranch(sc, typeName, arg, effKey, kind, props, |sc.objs|, isGroup, None,
                        structural, events, ref).objs
        == Assign(Assign(sc.objs + [o], o.id, structural), o.id, events);
  }

  /** Appending an object and assigning properties to it keeps everyone's identity fields. */
  lemma AppendAssigned(objs: seq<Obj>, o: Obj, structural: Props, events: Props)
    ensures AppendedTo(Assign(Assign(objs + [o], o.id, structural), o.id, events), objs, o.key, o.kind, o.stamp)
  {
    var a1 := Assign(objs + [o], o.id, structural);
    AssignKeeps(objs + [o], o.id, structural);
    AssignKeeps(a1, o.id, events);
    SameIdentitiesTrans(Assign(a1, o.id, events), a1, objs + [o]);
  }

  /** One more leaf into the layout of the leaves before it. */
  lemma FreshStep(prev: Outcome, leaves: seq<Leaf>, i: nat, env: Env)
    requires i < |leaves| && DistinctKeys(leaves) && Supported(leaves, env.registry)
    requires FreshHold(prev, leaves, i, env.selection)
    ensures FreshHold(Next(prev, leaves[i], i, env), leaves, i + 1, env.selection)
  {
    assert SupportedAt(leaves, i, env.registry);
    FreshMiss(prev.scene.objs, leaves, i, env.selection);
    AppendCreate(prev.scene, leaves[i], i, env);
    var objs := Next(prev, leaves[i], i, env).scene.objs;
    forall j | 0 <= j < i + 1 ensures LaidAt(objs, leaves, j, env.selection) {
      if j < i {
        assert LaidAt(prev.scene.objs, leaves, j, env.selection);
      }
    }
  }

  /** The pass has not thrown and the objects are those of the first `n` leaves. */
  ghost predicate FreshHold(r: Outcome, leaves: seq<Leaf>, n: nat, selection: bool) {
    r.error.None? && LaidUpTo(r.scene.objs, leaves, n, selection)
  }

  /** Into an empty container, leaves with distinct keys lay out one new object each. */
  lemma {:induction false} RunFresh(start: Scene, leaves: seq<Leaf>, n: nat, env: Env)
    requires n <= |leaves|
    requires start.objs == [] && DistinctKeys(leaves) && Supported(leaves, env.registry)
    ensures FreshHold(Run(start, leaves, n, env), leaves, n, env.selection)
    decreases n
  {
    if n > 0 {
      RunFresh(start, leaves, n - 1, env);
      FreshRun(start, leaves, n - 1, env);
    }
  }

  /** `FreshStep` for the leaf after the first `i` of a pass. */
  lemma FreshRun(start: Scene, leaves: seq<Leaf>, i: nat, env: Env)
    requires i < |leaves| && DistinctKeys(leaves) && Supported(leaves, env.registry)
    requires FreshHold(Run(start, leaves, i, env), leaves, i, env.selection)
    ensures FreshHold(Run(start, leaves, i + 1, env), leaves, i + 1, env.selection)
  {
    FreshStep(Run(start, leaves, i, env), leaves, i, env);
  }

  /** One leaf over laid-out objects keeps its own object untouched. */
  lemma OverLaidStep(start: Scene, prev: Outcome, leaves: seq<Leaf>, i: nat, env: Env)
    requires i < |leaves|
    requires Laid(start.objs, leaves, env.selection) && DistinctKeys(leaves)
    requires NormalizeName(leaves[i].kind) in env.registry
    requires prev.error.None? && prev.scene.objs == start.objs
    ensures var r := Next(prev, leaves[i], i, env);
      && r.error.None?
      && r.scene.objs == start.objs && r.scene.nextId == prev.scene.nextId
      && r.scene.marked == prev.scene.marked - {start.objs[i].id}
      && OnlyTouches(prev.scene.log, r.scene.log)
  {
    var leaf := leaves[i];
    LaidMatch(start.objs, leaves, |leaves|, env.selection, i);
    assert LaidAt(start.objs, leaves, i, env.selection);
    StepReuse(prev.scene, leaf, i, env);
    assert !HasChange(Prepared(leaf.props, env.selection), start.objs[i].stamp);
  }

  lemma OnlyTouchesTrans(a: seq<Call>, b: seq<Call>, c: seq<Call>)
    requires OnlyTouches(a, b) && OnlyTouches(b, c)
    ensures OnlyTouches(a, c)
  {
    assert c[..|a|] == c[..|b|][..|a|];
  }

  /** Over laid-out objects, every leaf keeps its own object untouched: the pass
      changes no object and makes no call but coordinate recalculations and
      `ref` callbacks, and clears the marks of the objects in order. */
  lemma {:induction false} RunOverLaid(start: Scene, leaves: seq<Leaf>, n: nat, env: Env)
    requires n <= |leaves|
    requires Laid(start.objs, leaves, env.selection) && DistinctKeys(leaves) && Supported(leaves, env.registry)
    ensures var r := Run(start, leaves, n, env);
      && r.error.None?
      && r.scene.objs == start.objs && r.scene.nextId == start.nextId
      && r.scene.marked == start.marked - SetOf(Ids(start.objs)[..n])
      && OnlyTouches(start.log, r.scene.log)
    decreases n
  {
    if n == 0 {
      assert SetOf(Ids(start.objs)[..0]) == {};
    } else {
      RunOverLaid(start, leaves, n - 1, env);
      OverLaidNext(start, Run(start, leaves, n - 1, env), leaves, n - 1, env);
    }
  }

  /** The invariant of `RunOverLaid`, carried over one more leaf. */
  lemma OverLaidNext(start: Scene, prev: Outcome, leaves: seq<Leaf>, i: nat, env: Env)
    requires i < |leaves|
    requires Laid(start.objs, leaves, env.selection) && DistinctKeys(leaves) && Supported(leaves, env.registry)
    requires prev.error.None? && prev.scene.objs == start.objs && prev.scene.nextId == start.nextId
    requires prev.scene.marked == start.marked - SetOf(Ids(start.objs)[..i])
    requires OnlyTouches(start.log, prev.scene.log)
    ensures var r := Next(prev, leaves[i], i, env);
      && r.error.None?
      && r.scene.objs == start.objs && r.scene.nextId == start.nextId
      && r.scene.marked == start.marked - SetOf(Ids(start.objs)[..i + 1])
      && OnlyTouches(start.log, r.scene.log)
  {
    assert SupportedAt(leaves, i, env.registry);
    OverLaidStep(start, prev, leaves, i, env);
    OnlyTouchesTrans(start.log, prev.scene.log, Next(prev, leaves[i], i, env).scene.log);
    PrefixIds(start.objs, i);
  }

  lemma PrefixIds(objs: seq<Obj>, i: nat)
    requires i < |objs|
    ensures SetOf(Ids(objs)[..i + 1]) == SetOf(Ids(objs)[..i]) + {objs[i].id}
  {
    var ids := Ids(objs);
    assert ids[..i + 1] == ids[..i] + [objs[i].id];
  }

  /** The final sweep removes nothing when no object of the snapshot is marked. */
  lemma SweepNothing(r: Scene, all: seq<ObjId>)
    requires forall x :: x in all ==> x !in r.marked
    ensures Sweep(r, all) == r
  {
    NoneMarkedAmong(all, r.marked);
  }

  lemma {:induction false} NoneMarkedAmong(ids: seq<ObjId>, marked: set<ObjId>)
    requires forall x :: x in ids ==> x !in marked
    ensures MarkedAmong(ids, marked) == []
    decreases ids
  {
    if ids != [] {
      assert ids[|ids| - 1] in ids;
      NoneMarkedAmong(ids[..|ids| - 1], marked);
    }
  }

  /** A first pass into an empty container lays the leaves out. */
  lemma FirstRender(sc: Scene, leaves: seq<Leaf>, env: Env)
    requires sc.objs == [] && DistinctKeys(leaves) && Supported(leaves, env.registry)
    ensures RenderLeaves(sc, leaves, env).error.None?
    ensures Laid(RenderLeaves(sc, leaves, env).scene.objs, leaves, env.selection)
  {
    var start := MarkAll(sc, Ids(sc.objs));
    RunFresh(start, leaves, |leaves|, env);
    SweepNothing(Run(start, leaves, |leaves|, env).scene, Ids(sc.objs));
  }

  /** Rendering the leaves an object list is laid out for changes none of its objects. */
  lemma RenderAgain(sc: Scene, leaves: seq<Leaf>, env: Env)
    requires Laid(sc.objs, leaves, env.selection) && DistinctKeys(leaves) && Supported(leaves, env.registry)
    ensures var r := RenderLeaves(sc, leaves, env);
      && r.error.None?
      && r.scene.objs == sc.objs && r.scene.nextId == sc.nextId
      && OnlyTouches(sc.log, r.scene.log)
  {
    var all := Ids(sc.objs);
    var start := MarkAll(sc, all);
    RunOverLaid(start, leaves, |leaves|, env);
    var r := Run(start, leaves, |leaves|, env).scene;
    assert all[..|leaves|] == all;
    assert r.marked == start.marked - SetOf(all);
    SweepNothing(r, all);
  }

  /** Rendering the same tree twice: with distinct keys and supported types, the
      second pass into what the first laid out changes no object, creates and
      removes nothing, and calls only `setCoords` and `ref`. */
  lemma RenderTwice(sc: Scene, root: Node, env: Env)
    requires sc.objs == [] && DistinctKeys(Flatten(root)) && Supported(Flatten(root), env.registry)
    ensures var first := RenderPass(sc, root, env);
      var second := RenderPass(first.scene, root, env);
      && first.error.None? && second.error.None?
      && Laid(first.scene.objs, Flatten(root), env.selection)
      && second.scene.objs == first.scene.objs
      && second.scene.nextId == first.scene.nextId
      && OnlyTouches(first.scene.log, second.scene.log)
  {
    FirstRender(sc, Flatten(root), env);
    RenderAgain(RenderPass(sc, root, env).scene, Flatten(root), env);
  }
}
