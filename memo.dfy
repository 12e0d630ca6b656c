/** The component memoizer (`component`, index.js:258-279): a component keeps
    one cache, the last projected props and the tree its view returned for
    them, shared by every props instance it is applied to. A call projects
    the state and the props, and when the projection is deep-equal to the
    cached one the cached tree comes back without calling the view. */
module Memo {
  import opened Values
  import opened Tree

  /** `lastProps`, `lastResult` (both `undefined` before the first view
      call) and the arguments the view has been called with, in order. */
  datatype Cache = Cache(lastProps: Value, lastResult: Node, viewCalls: seq<Value>)

  const Fresh: Cache := Cache(Undefined, Falsy, [])

  /** Before the first view call the cache is as it started; after it, the
      cached tree is what the view returns for the cached props. */
  ghost predicate Consistent(c: Cache, view: Value -> Node) {
    && (c.viewCalls == [] ==> c.lastProps == Undefined && c.lastResult == Falsy)
    && (c.viewCalls != [] ==> c.lastResult == view(c.lastProps))
  }

  /** The inner `function(state)` once `stateToProps(state, props)` has given
      `projected`: the cached tree when the projection is deep-equal to the
      cached one, otherwise the view's tree, which is then cached. */
  function CallS(c: Cache, projected: Value, view: Value -> Node): (Cache, Node) {
    if projected == c.lastProps then (c, c.lastResult)
    else (Cache(projected, view(projected), c.viewCalls + [projected]), view(projected))
  }

  /** The projector `component(view)` uses when given only the view. */
  function DefaultProjector(state: Props, props: Value): Value {
    props
  }

  /** A call keeps the cache consistent; it calls the view, once, exactly when
      the projection differs from the cached one. Once the view has been
      called, every call returns what the view returns for the projection,
      so the cache never changes the tree a component renders. The one
      exception is the first call: a projection that is `undefined` matches
      the empty cache and yields no tree without calling the view. */
  lemma CallIsTransparent(c: Cache, projected: Value, view: Value -> Node)
    requires Consistent(c, view)
    ensures var (c', r) := CallS(c, projected, view);
      && Consistent(c', view)
      && (projected != c.lastProps ==> r == view(projected) && c'.viewCalls == c.viewCalls + [projected])
      && (projected == c.lastProps ==> c' == c)
      && (c.viewCalls != [] ==> r == view(projected))
      && (c.viewCalls == [] && projected == Undefined ==> r == Falsy && c'.viewCalls == [])
      && c'.lastProps == projected
  {
  }

  /** The cache belongs to the component, not to a props instance: when a
      component applied to one props value has rendered, applying it to any
      other props value whose projection is equal returns the same tree
      without calling the view again. */
  lemma CacheSharedAcrossProps(c: Cache, project: (Props, Value) -> Value, view: Value -> Node,
                               s1: Props, p1: Value, s2: Props, p2: Value)
    requires project(s1, p1) == project(s2, p2)
    ensures var (c1, r1) := CallS(c, project(s1, p1), view);
      var (c2, r2) := CallS(c1, project(s2, p2), view);
      r2 == r1 && c2 == c1 && c2.viewCalls == c1.viewCalls
  {
  }

  /** Two calls in a row with different projections call the view twice and
      return its trees for each, in order. */
  lemma {:induction false} AlternatingProjections(c: Cache, a: Value, b: Value, view: Value -> Node)
    requires Consistent(c, view) && a != b && a != c.lastProps
    ensures var (c1, r1) := CallS(c, a, view);
      var (c2, r2) := CallS(c1, b, view);
      && r1 == view(a) && r2 == view(b)
      && c2.viewCalls == c.viewCalls + [a, b]
  {
    var (c1, r1) := CallS(c, a, view);
    assert c1.lastProps == a;
    assert c.viewCalls + [a] + [b] == c.viewCalls + [a, b];
  }

  /** `component(stateToProps, view)` or `component(view)`: the function it
      returns, applied to `props` and then to a state. */
  class Component {
    const project: (Props, Value) -> Value
    const view: Value -> Node
    var lastProps: Value
    var lastResult: Node
    var viewCalls: seq<Value>

    function Snapshot(): Cache
      reads this
    {
      Cache(lastProps, lastResult, viewCalls)
    }

    /** With no projector the props are passed to the view as they are. */
    constructor (projector: Option<(Props, Value) -> Value>, view: Value -> Node)
      ensures Snapshot() == Fresh && this.view == view
      ensures projector.Some? ==> project == projector.value
      ensures projector.None? ==> forall s, p :: project(s, p) == p
    {
      var chosen: (Props, Value) -> Value :=
        if projector.Some? then projector.value else (s: Props, p: Value) => DefaultProjector(s, p);
      project := chosen;
      this.view := view;
      lastProps, lastResult, viewCalls := Undefined, Falsy, [];
    }

    /** `componentType(props)(state)` */
    method Call(props: Value, state: Props) returns (r: Node)
      modifies this
      ensures (Snapshot(), r) == CallS(old(Snapshot()), project(state, props), view)
    {
      var newProps := project(state, props);
      if newProps == lastProps {
        return lastResult;
      }
      lastProps := newProps;
      lastResult := view(newProps);
      viewCalls := viewCalls + [newProps];
      r := lastResult;
    }
  }
}
