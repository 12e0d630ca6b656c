/** The declarative tree and its flattening into an ordered list of leaves
    (`element` and `collect` inside `render`, index.js:105-139, 284-290). */
module Tree {
  import opened Values

  /** The `type` of an element: a name, or a function (a component). A function
      type carries what it returns when `collect` calls it with the element's
      props and children. */
  datatype ElemType = Named(name: string) | Component(output: Node)

  /** The node shapes `collect` distinguishes. A function of the state carries the
      node it returns for the snapshot the render pass read once (index.js:101),
      since the state is fixed for the whole pass. `Falsy` stands for `null`,
      `undefined`, `false`, `0` and `""`. */
  datatype Node =
    | Falsy
    | StateFn(output: Node)
    | List(items: seq<Node>)
    | Elem(kind: ElemType, props: Props, children: seq<Node>)

  /** A flattened leaf descriptor: `{ type, props, children }`. */
  datatype Leaf = Leaf(kind: string, props: Props, children: seq<Node>)

  /** `element(type, props, ...children)`: no validation, missing props become `{}`. */
  function Element(kind: ElemType, props: Option<Props>, children: seq<Node>): Node {
    Elem(kind, if props.Some? then props.value else map[], children)
  }

  /** `collect(comp, blockProps)`: a function node is applied once, then the
      result is flattened. */
  function Collect(n: Node, inherited: Props): seq<Leaf>
    decreases n, 1
  {
    match n
    case StateFn(out) => CollectValue(out, inherited)
    case _ => CollectValue(n, inherited)
  }

  /** The part of `collect` after the function check. A function returned by a
      state function is not applied again: it falls through to the leaf case,
      where its `type` and `props` are `undefined` (an empty type name). */
  function CollectValue(n: Node, inherited: Props): seq<Leaf>
    decreases n, 0
  {
    match n
    case Falsy => []
    case StateFn(_) => [Leaf("", inherited, [])]
    case List(items) => CollectAll(items, inherited)
    case Elem(Component(out), _, _) => Collect(out, map[])
    case Elem(Named(t), p, c) =>
      if t == "block" then CollectAll(c, p) else [Leaf(t, inherited + p, c)]
  }

  /** `comp.forEach(x => collect(x, blockProps))` */
  function CollectAll(items: seq<Node>, inherited: Props): seq<Leaf>
    decreases items
  {
    if items == [] then [] else Collect(items[0], inherited) + CollectAll(items[1..], inherited)
  }

  /** The render pass flattens its root with no inherited props. */
  function Flatten(root: Node): seq<Leaf> {
    Collect(root, map[])
  }

  /** An array flattens to the concatenation of its parts, in order. */
  lemma {:induction false} CollectAllAppend(xs: seq<Node>, ys: seq<Node>, inherited: Props)
    ensures CollectAll(xs + ys, inherited) == CollectAll(xs, inherited) + CollectAll(ys, inherited)
    decreases xs
  {
    if xs == [] {
      assert xs + ys == ys;
    } else {
      assert (xs + ys)[0] == xs[0];
      assert (xs + ys)[1..] == xs[1..] + ys;
      CollectAllAppend(xs[1..], ys, inherited);
    }
  }

  function WithoutFalsy(xs: seq<Node>): seq<Node> {
    if xs == [] then []
    else if xs[0] == Falsy then WithoutFalsy(xs[1..])
    else [xs[0]] + WithoutFalsy(xs[1..])
  }

  /** Falsy array elements contribute nothing: dropping them changes no leaf. */
  lemma {:induction false} FalsyContributesNothing(xs: seq<Node>, inherited: Props)
    ensures CollectAll(xs, inherited) == CollectAll(WithoutFalsy(xs), inherited)
    decreases xs
  {
    if xs != [] {
      FalsyContributesNothing(xs[1..], inherited);
      if xs[0] != Falsy {
        var w := [xs[0]] + WithoutFalsy(xs[1..]);
        assert w[0] == xs[0] && w[1..] == WithoutFalsy(xs[1..]);
      }
    }
  }

  /** How each shape flattens: a falsy node gives nothing; a named element gives
      one leaf whose props are the inherited ones overridden by its own; a block
      flattens its children with its OWN props as the inherited ones, whatever was
      inherited before; a component's output is flattened with no inherited props. */
  lemma CollectShapes(p: Props, kids: seq<Node>, out: Node, t: string, inherited: Props)
    ensures Collect(Falsy, inherited) == []
    ensures t != "block" ==>
      Collect(Element(Named(t), Some(p), kids), inherited) == [Leaf(t, inherited + p, kids)]
    ensures Collect(Element(Named("block"), Some(p), kids), inherited) == CollectAll(kids, p)
    ensures Collect(Element(Named("block"), None, kids), inherited) == CollectAll(kids, map[])
    ensures Collect(Element(Component(out), Some(p), kids), inherited) == Collect(out, map[])
  {
    var blk := Element(Named("block"), Some(p), kids);
    assert Collect(blk, inherited) == CollectValue(blk, inherited);
    var blk0 := Element(Named("block"), None, kids);
    assert Collect(blk0, inherited) == CollectValue(blk0, inherited);
    var cmp := Element(Component(out), Some(p), kids);
    assert Collect(cmp, inherited) == CollectValue(cmp, inherited);
    var leaf := Element(Named(t), Some(p), kids);
    assert Collect(leaf, inherited) == CollectValue(leaf, inherited);
  }

  /** `r` is `base` with `b` laid under some of the leaves' props. */
  ghost predicate Underlaid(r: seq<Leaf>, base: seq<Leaf>, b: Props) {
    && |r| == |base|
    && forall k :: 0 <= k < |r| ==>
         && r[k].kind == base[k].kind
         && r[k].children == base[k].children
         && (r[k].props == base[k].props || r[k].props == b + base[k].props)
  }

  lemma UnderlaidConcat(r1: seq<Leaf>, base1: seq<Leaf>, r2: seq<Leaf>, base2: seq<Leaf>, b: Props)
    requires Underlaid(r1, base1, b) && Underlaid(r2, base2, b)
    ensures Underlaid(r1 + r2, base1 + base2, b)
  {
    forall k | 0 <= k < |r1 + r2|
      ensures (r1 + r2)[k].kind == (base1 + base2)[k].kind
      ensures (r1 + r2)[k].children == (base1 + base2)[k].children
      ensures (r1 + r2)[k].props == (base1 + base2)[k].props ||
              (r1 + r2)[k].props == b + (base1 + base2)[k].props
    {
      if k >= |r1| {
        assert (r1 + r2)[k] == r2[k - |r1|] && (base1 + base2)[k] == base2[k - |r1|];
      }
    }
  }

  /** Inherited props never change which leaves come out, their order, their
      types or their children; the most they do is sit underneath a leaf's own
      props (and for some leaves, those past a block or a component, not even that). */
  lemma {:induction false} InheritedOnlyUnderlays(n: Node, inherited: Props)
    ensures Underlaid(Collect(n, inherited), Collect(n, map[]), inherited)
    decreases n, 1
  {
    match n
    case StateFn(out) => ValueInheritedOnlyUnderlays(out, inherited);
    case _ => ValueInheritedOnlyUnderlays(n, inherited);
  }

  lemma {:induction false} ValueInheritedOnlyUnderlays(n: Node, inherited: Props)
    ensures Underlaid(CollectValue(n, inherited), CollectValue(n, map[]), inherited)
    decreases n, 0
  {
    match n
    case Falsy =>
    case StateFn(_) =>
      assert inherited == inherited + map[];
    case List(items) => AllInheritedOnlyUnderlays(items, inherited);
    case Elem(Component(out), _, _) =>
    case Elem(Named(t), p, c) =>
      if t != "block" {
        assert map[] + p == p;
      }
  }

  lemma {:induction false} AllInheritedOnlyUnderlays(items: seq<Node>, inherited: Props)
    ensures Underlaid(CollectAll(items, inherited), CollectAll(items, map[]), inherited)
    decreases items
  {
    if items != [] {
      InheritedOnlyUnderlays(items[0], inherited);
      AllInheritedOnlyUnderlays(items[1..], inherited);
      UnderlaidConcat(Collect(items[0], inherited), Collect(items[0], map[]),
                      CollectAll(items[1..], inherited), CollectAll(items[1..], map[]), inherited);
    }
  }
}
