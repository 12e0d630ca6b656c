/** The state container `createApp` builds (index.js:294-331, 346-363, 505-509,
    563): the `app` function reads the state, subscribes a listener, or writes
    the state (a property path or a shallow merge) and then calls every
    subscriber in order with the new state; `app.debounce` is its debounced form. */
module App {
  import opened Values

  // ---------------------------------------------------------------------------
  // Property paths (`set` and `get` with a string path)

  /** The segments between the dots of a path, empty ones included ("a..b" has
      three segments, "" has one). */
  function SplitPath(s: string): (r: seq<string>)
    ensures |r| >= 1
    decreases |s|
  {
    if s == [] then [""]
    else if s[0] == '.' then [""] + SplitPath(s[1..])
    else var t := SplitPath(s[1..]); [[s[0]] + t[0]] + t[1..]
  }

  function JoinPath(ps: seq<string>): string
    requires |ps| >= 1
    decreases |ps|
  {
    if |ps| == 1 then ps[0] else ps[0] + "." + JoinPath(ps[1..])
  }

  predicate NoDots(ps: seq<string>) {
    forall i :: 0 <= i < |ps| ==> '.' !in ps[i]
  }

  /** Splitting a path and joining the segments with dots gives the path back. */
  lemma {:induction false} JoinSplit(s: string)
    ensures JoinPath(SplitPath(s)) == s
    decreases |s|
  {
    if s != [] {
      JoinSplit(s[1..]);
      var t := SplitPath(s[1..]);
      if s[0] == '.' {
        assert SplitPath(s) == [""] + t;
        assert ([""] + t)[1..] == t;
        assert s == "." + s[1..];
      } else {
        PrependToHead(s[0], t);
        assert s == [s[0]] + s[1..];
      }
    }
  }

  lemma PrependToHead(c: char, t: seq<string>)
    requires |t| >= 1
    ensures JoinPath([[c] + t[0]] + t[1..]) == [c] + JoinPath(t)
  {
    var u := [[c] + t[0]] + t[1..];
    if |t| > 1 {
      assert u[1..] == t[1..];
    }
  }

  /** A dot-free prefix stays glued to the first segment. */
  lemma {:induction false} SplitAfterPlain(a: string, s: string)
    requires '.' !in a
    ensures SplitPath(a + s) == [a + SplitPath(s)[0]] + SplitPath(s)[1..]
    decreases |a|
  {
    if a == [] {
      var t := SplitPath(s);
      assert a + s == s && a + t[0] == t[0];
      assert t == [t[0]] + t[1..];
    } else {
      SplitAfterPlain(a[1..], s);
      assert (a + s)[0] == a[0] && (a + s)[1..] == a[1..] + s;
      assert [a[0]] + (a[1..] + SplitPath(s)[0]) == a + SplitPath(s)[0];
    }
  }

  /** Joining dot-free segments and splitting again gives the segments back. */
  lemma {:induction false} SplitJoin(ps: seq<string>)
    requires |ps| >= 1 && NoDots(ps)
    ensures SplitPath(JoinPath(ps)) == ps
    decreases |ps|
  {
    assert '.' !in ps[0];
    if |ps| == 1 {
      SplitAfterPlain(ps[0], "");
      assert ps[0] + "" == ps[0];
    } else {
      var rest := JoinPath(ps[1..]);
      assert NoDots(ps[1..]) by {
        forall i | 0 <= i < |ps[1..]| ensures '.' !in ps[1..][i] {
          assert ps[1..][i] == ps[i + 1];
        }
      }
      SplitJoin(ps[1..]);
      assert ps[0] + "." + rest == ps[0] + ("." + rest);
      SplitAfterPlain(ps[0], "." + rest);
      assert ("." + rest)[0] == '.' && ("." + rest)[1..] == rest;
      assert SplitPath("." + rest) == [""] + ps[1..];
      assert ps[0] + "" == ps[0];
    }
  }

  /** A path has more than one segment exactly when it has a dot, and a
      dot-free path is its own single segment. */
  lemma {:induction false} SplitShape(s: string)
    ensures '.' !in s ==> SplitPath(s) == [s]
    ensures '.' in s ==> |SplitPath(s)| >= 2
    decreases |s|
  {
    if '.' !in s {
      SplitAfterPlain(s, "");
      assert s + "" == s;
    } else if s[0] != '.' {
      assert '.' in s[1..];
      SplitShape(s[1..]);
    }
  }

  /** How the path string is cut into keys: the whole string is one key when it
      names an existing property or has no dot, otherwise it is split at the dots. */
  function CastPath(p: string, obj: Props): (r: seq<string>)
    ensures |r| >= 1
  {
    if p in obj || '.' !in p then [p] else SplitPath(p)
  }

  /** Reading nested properties: `undefined` as soon as a key is missing or the
      value on the way is not an object. */
  function GetIn(m: Props, path: seq<string>): Value
    requires |path| >= 1
    decreases |path|
  {
    if path[0] !in m then Undefined
    else if |path| == 1 then m[path[0]]
    else match m[path[0]]
      case Object(f) => GetIn(f, path[1..])
      case _ => Undefined
  }

  /** The fields of the object under `k`, or none when there is no object there. */
  function ChildFields(m: Props, k: string): Props {
    if k in m && m[k].Object? then m[k].fields else map[]
  }

  /** Writing nested properties: a missing or non-object value on the way
      becomes a new object; every other property is kept. */
  function SetIn(m: Props, path: seq<string>, v: Value): (r: Props)
    requires |path| >= 1
    ensures path[0] in r
    ensures forall k :: k != path[0] ==> (k in r <==> k in m) && (k in m ==> r[k] == m[k])
    decreases |path|
  {
    if |path| == 1 then m[path[0] := v]
    else m[path[0] := Object(SetIn(ChildFields(m, path[0]), path[1..], v))]
  }

  /** `get(obj, path)` */
  function GetPath(obj: Props, p: string): Value {
    GetIn(obj, CastPath(p, obj))
  }

  /** `set(obj, path, value)` on a fresh copy of `obj`. */
  function SetPath(obj: Props, p: string, v: Value): Props {
    SetIn(obj, CastPath(p, obj), v)
  }

  lemma {:induction false} GetSetIn(m: Props, path: seq<string>, v: Value)
    requires |path| >= 1
    ensures GetIn(SetIn(m, path, v), path) == v
    decreases |path|
  {
    if |path| > 1 {
      GetSetIn(ChildFields(m, path[0]), path[1..], v);
    }
  }

  /** Reading a path right after writing it gives the value written, whether the
      path was taken as one key or split at its dots. */
  lemma GetAfterSet(obj: Props, p: string, v: Value)
    ensures GetPath(SetPath(obj, p, v), p) == v
  {
    var path := CastPath(p, obj);
    var r := SetIn(obj, path, v);
    GetSetIn(obj, path, v);
    if !(p in obj || '.' !in p) {
      SplitShape(p);
      JoinSplit(p);
      assert p == path[0] + "." + JoinPath(path[1..]);
      assert p != path[0];
      assert p !in r;
      assert CastPath(p, r) == path;
    }
  }

  // ---------------------------------------------------------------------------
  // Spreading the argument

  function Digit(d: nat): char
    requires d < 10
  {
    ('0' as int + d) as char
  }

  /** The decimal form of an array index. */
  function Decimal(n: nat): (r: string)
    ensures |r| >= 1
    decreases n
  {
    if n < 10 then [Digit(n)] else Decimal(n / 10) + [Digit(n % 10)]
  }

  function SpreadItems(items: seq<Value>, i: nat): Props
    decreases |items| - i
  {
    if i >= |items| then map[] else SpreadItems(items, i + 1)[Decimal(i) := items[i]]
  }

  /** The own enumerable properties `{...v}` copies: an object's fields, an
      array's elements under their decimal indices, nothing for a number or a
      boolean. */
  function Spread(v: Value): Props {
    match v
    case Object(f) => f
    case Arr(items) => SpreadItems(items, 0)
    case _ => map[]
  }

  // ---------------------------------------------------------------------------
  // The container's state

  /** A subscriber: the surface refresh installed by `createApp`, or a listener
      function known by its identity. */
  datatype Subscriber = Surface | Listener(fn: nat)

  /** One call of a subscriber with a state. */
  datatype Notice = Notice(to: Subscriber, state: Props)

  /** The unsubscribe function returned for a subscription, with its
      `unsubcribed` flag. */
  datatype Handle = Handle(fn: nat, used: bool)

  /** The arguments of the latest call to `app.debounce` not yet carried out. */
  datatype Deferred = Deferred(arg: Value, value: Value)

  datatype Store = Store(
    state: Props,
    subscribers: seq<Subscriber>,
    handles: seq<Handle>,
    notices: seq<Notice>,
    pending: Option<Deferred>)

  /** Function identities of the helpers `createApp` puts in the state. */
  const StateFnId: nat := 0
  const AnimFnId: nat := 1
  const AnimColorFnId: nat := 2
  const LoadImageFnId: nat := 3

  /** `$state`, `$anim`, `$animColor` and `$load`, which the initial state may override. */
  const Builtins: Props := map[
    "$state" := Fn(StateFnId),
    "$anim" := Fn(AnimFnId),
    "$animColor" := Fn(AnimColorFnId),
    "$load" := Object(map["image" := Fn(LoadImageFnId)])
  ]

  /** `subscribers.forEach(x => x(state))`: each subscriber once, in order. */
  function Notify(subs: seq<Subscriber>, s: Props): (r: seq<Notice>)
    ensures |r| == |subs|
    ensures forall i :: 0 <= i < |subs| ==> r[i] == Notice(subs[i], s)
    decreases |subs|
  {
    if subs == [] then [] else [Notice(subs[0], s)] + Notify(subs[1..], s)
  }

  lemma NotifyAppend(subs: seq<Subscriber>, i: nat, s: Props)
    requires i < |subs|
    ensures Notify(subs[..i + 1], s) == Notify(subs[..i], s) + [Notice(subs[i], s)]
  {
    var a := Notify(subs[..i + 1], s);
    var b := Notify(subs[..i], s) + [Notice(subs[i], s)];
    assert |a| == |b|;
    forall k | 0 <= k < |a| ensures a[k] == b[k] {
      assert subs[..i + 1][k] == subs[k];
      if k < i {
        assert subs[..i][k] == subs[k];
      }
    }
  }

  /** `subscribers.filter(x => x !== arg)`: every occurrence of `s` removed. */
  function Without(subs: seq<Subscriber>, s: Subscriber): (r: seq<Subscriber>)
    ensures forall x :: x in r <==> x in subs && x != s
    decreases |subs|
  {
    if subs == [] then []
    else (if subs[0] == s then [] else [subs[0]]) + Without(subs[1..], s)
  }

  /** Removal keeps the order of the others: it distributes over concatenation. */
  lemma {:induction false} WithoutConcat(a: seq<Subscriber>, b: seq<Subscriber>, s: Subscriber)
    ensures Without(a + b, s) == Without(a, s) + Without(b, s)
    decreases |a|
  {
    if a == [] {
      assert a + b == b;
    } else {
      assert (a + b)[0] == a[0] && (a + b)[1..] == a[1..] + b;
      WithoutConcat(a[1..], b, s);
    }
  }

  /** Removing a subscriber that is not there changes nothing. */
  lemma {:induction false} WithoutAbsent(subs: seq<Subscriber>, s: Subscriber)
    requires s !in subs
    ensures Without(subs, s) == subs
    decreases |subs|
  {
    if subs != [] {
      assert subs[1..] == subs[1..];
      assert s !in subs[1..];
      WithoutAbsent(subs[1..], s);
      assert subs == [subs[0]] + subs[1..];
    }
  }

  /** The state a write leaves, or `None` when the argument is falsy. An `undefined`
      argument defaults to `true`, which merges nothing but still notifies. */
  function Written(state: Props, arg: Value, value: Value): Option<Props> {
    var a := if arg == Undefined then Bool(true) else arg;
    if !Truthy(a) then None
    else if a.Str? then Some(SetPath(state, a.s, value))
    else Some(state + Spread(a))
  }

  function SubscribeS(st: Store, fn: nat): (Store, Option<nat>) {
    (st.(subscribers := st.subscribers + [Listener(fn)], handles := st.handles + [Handle(fn, false)]),
     Some(|st.handles|))
  }

  /** `app(arg, value)` with at least one argument: a function subscribes and
      gets an unsubscribe handle; otherwise the state is written and every
      subscriber is called with it, unless the argument is falsy. */
  function ApplyS(st: Store, arg: Value, value: Value): (Store, Option<nat>) {
    if arg.Fn? then SubscribeS(st, arg.id)
    else match Written(st.state, arg, value)
      case None => (st, None)
      case Some(s) => (st.(state := s, notices := st.notices + Notify(st.subscribers, s)), None)
  }

  /** The handle's unsubscribe function: the first call removes every
      subscription of the same function, later calls do nothing. */
  function UnsubscribeS(st: Store, h: nat): Store
    requires h < |st.handles|
  {
    if st.handles[h].used then st
    else st.(handles := st.handles[h := st.handles[h].(used := true)],
             subscribers := Without(st.subscribers, Listener(st.handles[h].fn)))
  }

  /** `app.debounce(arg, value)`: only the latest arguments are remembered. */
  function DebounceS(st: Store, arg: Value, value: Value): Store {
    st.(pending := Some(Deferred(arg, value)))
  }

  /** The debounce delay elapses: the latest arguments are applied, once. */
  function FlushS(st: Store): Store {
    match st.pending
    case None => st
    case Some(d) => ApplyS(st.(pending := None), d.arg, d.value).0
  }

  /** The store `createApp` leaves behind: the helpers under the initial state,
      the surface as the only subscriber, and the final `app(true)` done. */
  function CreatedS(initial: Props): Store {
    ApplyS(Store(Builtins + initial, [Surface], [], [], None), Bool(true), Undefined).0
  }

  /** A listener function that still has an unused unsubscribe handle. */
  ghost predicate Live(handles: seq<Handle>, fn: nat) {
    exists h :: 0 <= h < |handles| && handles[h] == Handle(fn, false)
  }

  /** The surface comes first and only once, and every listener can still be
      unsubscribed. */
  ghost predicate ValidStore(st: Store) {
    && |st.subscribers| >= 1 && st.subscribers[0] == Surface && Surface !in st.subscribers[1..]
    && forall x :: x in st.subscribers && x.Listener? ==> Live(st.handles, x.fn)
  }

  // ---------------------------------------------------------------------------
  // What the container promises

  /** Creating the container notifies the surface once with the initial state,
      in which the initial state's own keys win over the helpers. */
  lemma CreatedNotifiesSurface(initial: Props)
    ensures var st := CreatedS(initial);
      && ValidStore(st)
      && st.state == Builtins + initial
      && st.notices == [Notice(Surface, Builtins + initial)]
      && (forall k :: k in initial ==> st.state[k] == initial[k])
  {
    var s := Builtins + initial;
    assert s + Spread(Bool(true)) == s;
    assert Notify([Surface], s) == [Notice(Surface, s)];
    assert [Surface][1..] == [];
  }

  /** A falsy argument other than `undefined` changes nothing and notifies nobody. */
  lemma FalsyWriteIsIgnored(st: Store, arg: Value, value: Value)
    requires !Truthy(arg) && arg != Undefined
    ensures ApplyS(st, arg, value) == (st, None)
  {
  }

  /** A first argument that is explicitly `undefined`, as in `app(undefined)` or
      `app(undefined, v)`, defaults to `true`: the state is kept and every subscriber
      is still called with it. `app()` with no arguments is the read `Get` and
      notifies nobody. */
  lemma MissingArgumentRenotifies(st: Store, value: Value)
    ensures ApplyS(st, Undefined, value).0 == st.(notices := st.notices + Notify(st.subscribers, st.state))
  {
    assert st.state + Spread(Bool(true)) == st.state;
  }

  /** A path write: afterwards the path reads back the value written, the other
      top-level properties are untouched, and every subscriber is called with
      the new state, in order. */
  lemma PathWrite(st: Store, path: string, value: Value)
    requires path != ""
    ensures var r := ApplyS(st, Str(path), value).0;
      && GetPath(r.state, path) == value
      && (forall k :: k != CastPath(path, st.state)[0] ==>
            (k in r.state <==> k in st.state) && (k in st.state ==> r.state[k] == st.state[k]))
      && r.notices == st.notices + Notify(st.subscribers, r.state)
      && r.subscribers == st.subscribers && r.handles == st.handles && r.pending == st.pending
  {
    GetAfterSet(st.state, path, value);
  }

  /** A merge: the argument's own properties win, every other property is kept,
      and every subscriber is called with the new state, in order. */
  lemma MergeWrite(st: Store, fields: Props, value: Value)
    ensures var r := ApplyS(st, Object(fields), value).0;
      && (forall k :: k in fields ==> k in r.state && r.state[k] == fields[k])
      && (forall k :: k !in fields ==> (k in r.state <==> k in st.state) && (k in st.state ==> r.state[k] == st.state[k]))
      && r.notices == st.notices + Notify(st.subscribers, r.state)
  {
  }

  /** An unsubscribe right after subscribing removes the function, together
      with any earlier subscription of the same function, and keeps the other
      subscribers in their order. */
  lemma SubscribeThenUnsubscribe(st: Store, fn: nat)
    ensures var (s1, h) := ApplyS(st, Fn(fn), Undefined);
      && h == Some(|st.handles|)
      && s1.subscribers == st.subscribers + [Listener(fn)]
      && UnsubscribeS(s1, h.value).subscribers == Without(st.subscribers, Listener(fn))
      && Listener(fn) !in UnsubscribeS(s1, h.value).subscribers
  {
    var s1 := SubscribeS(st, fn).0;
    WithoutConcat(st.subscribers, [Listener(fn)], Listener(fn));
    assert Without([Listener(fn)], Listener(fn)) == [];
  }

  /** Calling an unsubscribe function a second time does nothing; and once a
      function has been removed, its other handles remove nothing more. */
  lemma UnsubscribeIsIdempotent(st: Store, h: nat, h2: nat)
    requires h < |st.handles| && h2 < |st.handles| && st.handles[h2].fn == st.handles[h].fn
    ensures UnsubscribeS(UnsubscribeS(st, h), h) == UnsubscribeS(st, h)
    ensures !st.handles[h].used ==>
      var s1 := UnsubscribeS(st, h);
      UnsubscribeS(s1, h2).subscribers == s1.subscribers
  {
    var s1 := UnsubscribeS(st, h);
    var f := Listener(st.handles[h].fn);
    if !st.handles[h].used && !s1.handles[h2].used {
      WithoutAbsent(s1.subscribers, f);
    }
  }

  /** Only the latest debounced call takes effect, and it takes effect exactly
      as if it had been made directly. */
  lemma DebounceKeepsLatest(st: Store, a1: Value, v1: Value, a2: Value, v2: Value)
    ensures FlushS(DebounceS(DebounceS(st, a1, v1), a2, v2)) == FlushS(DebounceS(st, a2, v2))
    ensures FlushS(DebounceS(st, a2, v2)) == ApplyS(st.(pending := None), a2, v2).0
  {
  }

  lemma WithoutKeepsSurfaceFirst(subs: seq<Subscriber>, fn: nat)
    requires |subs| >= 1 && subs[0] == Surface && Surface !in subs[1..]
    ensures var r := Without(subs, Listener(fn));
      |r| >= 1 && r[0] == Surface && Surface !in r[1..]
  {
    assert subs == [subs[0]] + subs[1..];
    WithoutConcat([subs[0]], subs[1..], Listener(fn));
    assert Without([Surface], Listener(fn)) == [Surface];
  }

  /** Every operation keeps the surface first and every listener removable, so
      the surface is always the first subscriber a write calls. */
  lemma ApplyKeepsValid(st: Store, arg: Value, value: Value)
    requires ValidStore(st)
    ensures ValidStore(ApplyS(st, arg, value).0)
  {
    if arg.Fn? {
      var r := ApplyS(st, arg, value).0;
      assert r.subscribers[1..] == st.subscribers[1..] + [Listener(arg.id)];
      forall x | x in r.subscribers && x.Listener? ensures Live(r.handles, x.fn) {
        if x in st.subscribers {
          var h :| 0 <= h < |st.handles| && st.handles[h] == Handle(x.fn, false);
          assert r.handles[h] == Handle(x.fn, false);
        } else {
          assert r.handles[|st.handles|] == Handle(x.fn, false);
        }
      }
    }
  }

  lemma UnsubscribeKeepsValid(st: Store, h: nat)
    requires ValidStore(st) && h < |st.handles|
    ensures ValidStore(UnsubscribeS(st, h))
  {
    if !st.handles[h].used {
      var r := UnsubscribeS(st, h);
      var fn := st.handles[h].fn;
      WithoutKeepsSurfaceFirst(st.subscribers, fn);
      forall x | x in r.subscribers && x.Listener? ensures Live(r.handles, x.fn) {
        var g :| 0 <= g < |st.handles| && st.handles[g] == Handle(x.fn, false);
        assert g != h;
        assert r.handles[g] == Handle(x.fn, false);
      }
    }
  }

  lemma FlushKeepsValid(st: Store)
    requires ValidStore(st)
    ensures ValidStore(FlushS(st))
  {
    if st.pending.Some? {
      ApplyKeepsValid(st.(pending := None), st.pending.value.arg, st.pending.value.value);
    }
  }

  /** In a valid store every write calls the surface first. */
  lemma SurfaceNotifiedFirst(st: Store, arg: Value, value: Value)
    requires ValidStore(st) && !arg.Fn? && Written(st.state, arg, value).Some?
    ensures var r := ApplyS(st, arg, value).0;
      |r.notices| > |st.notices| && r.notices[|st.notices|] == Notice(Surface, r.state)
  {
  }

  // ---------------------------------------------------------------------------
  // The container as an object

  class AppState {
    var state: Props
    var subscribers: seq<Subscriber>
    var handles: seq<Handle>
    var notices: seq<Notice>
    var pending: Option<Deferred>

    function Snapshot(): Store
      reads this
    {
      Store(state, subscribers, handles, notices, pending)
    }

    /** `createApp(view, canvas, initialState)` as far as the state goes. */
    constructor (initial: Props)
      ensures Snapshot() == CreatedS(initial)
    {
      state := Builtins + initial;
      subscribers := [Surface];
      handles := [];
      notices := [];
      pending := None;
      new;
      var _ := Apply(Bool(true), Undefined);
    }

    /** `app()` */
    method Get() returns (s: Props)
      ensures s == state
    {
      s := state;
    }

    /** `app(arg, value)` */
    method Apply(arg: Value, value: Value) returns (unsubscribe: Option<nat>)
      modifies this
      ensures (Snapshot(), unsubscribe) == ApplyS(old(Snapshot()), arg, value)
    {
      if arg.Fn? {
        subscribers := subscribers + [Listener(arg.id)];
        unsubscribe := Some(|handles|);
        handles := handles + [Handle(arg.id, false)];
        return;
      }
      unsubscribe := None;
      var a := if arg == Undefined then Bool(true) else arg;
      if !Truthy(a) {
        return;
      }
      if a.Str? {
        state := SetPath(state, a.s, value);
      } else {
        state := state + Spread(a);
      }
      NotifyAll();
    }

    /** `subscribers.forEach(x => x(state))` */
    method NotifyAll()
      modifies this
      ensures Snapshot() == old(Snapshot()).(notices := old(notices) + Notify(old(subscribers), old(state)))
    {
      var subs := subscribers;
      var i := 0;
      while i < |subs|
        invariant 0 <= i <= |subs|
        invariant Snapshot() == old(Snapshot()).(notices := old(notices) + Notify(subs[..i], old(state)))
      {
        NotifyAppend(subs, i, state);
        notices := notices + [Notice(subs[i], state)];
        i := i + 1;
      }
      assert subs[..|subs|] == subs;
    }

    /** Calling the unsubscribe function of handle `h`. */
    method Unsubscribe(h: nat)
      requires h < |handles|
      modifies this
      ensures Snapshot() == UnsubscribeS(old(Snapshot()), h)
    {
      if handles[h].used {
        return;
      }
      var fn := handles[h].fn;
      handles := handles[h := Handle(fn, true)];
      subscribers := Without(subscribers, Listener(fn));
    }

    /** `app.debounce(arg, value)` */
    method Debounce(arg: Value, value: Value)
      modifies this
      ensures Snapshot() == DebounceS(old(Snapshot()), arg, value)
    {
      pending := Some(Deferred(arg, value));
    }

    /** The debounce delay elapses. */
    method Flush()
      modifies this
      ensures Snapshot() == FlushS(old(Snapshot()))
    {
      if pending.Some? {
        var d := pending.value;
        pending := None;
        var _ := Apply(d.arg, d.value);
      }
    }
  }
}
