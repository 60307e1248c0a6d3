/** The concrete syntax tree the tree-sitter HCL grammar hands to the compilers:
    each node has a `type` tag, its source `text`, all of its `children`
    (punctuation included), and a flag saying whether it is a named node.
    `namedChildren` is derived: the named subsequence of `children`.
 */
module Cst {
  import opened Wrappers

  datatype Node = Node(kind: string, text: string, isNamed: bool, children: seq<Node>)

  /** The named nodes of `ns`, in order. */
  function Named(ns: seq<Node>): (r: seq<Node>)
    ensures |r| <= |ns|
    ensures forall i :: 0 <= i < |r| ==> r[i] in ns && r[i].isNamed
    ensures forall i :: 0 <= i < |ns| && ns[i].isNamed ==> ns[i] in r
  {
    if |ns| == 0 then []
    else (if ns[0].isNamed then [ns[0]] else []) + Named(ns[1..])
  }

  /** `namedChildren` keeps the order of `children`: appending a node appends
      it to the result exactly when it is named. */
  lemma {:induction false} NamedSnoc(ns: seq<Node>, x: Node)
    ensures Named(ns + [x]) == Named(ns) + (if x.isNamed then [x] else [])
  {
    if |ns| == 0 {
      assert ns + [x] == [x] + [];
      NamedCons(x, []);
    } else {
      var y, ys := ns[0], ns[1..];
      assert ns == [y] + ys;
      assert ns + [x] == [y] + (ys + [x]);
      NamedCons(y, ys + [x]);
      NamedSnoc(ys, x);
      NamedCons(y, ys);
    }
  }

  /** One step of the named filter: the head is kept exactly when it is named. */
  lemma NamedCons(y: Node, ys: seq<Node>)
    ensures Named([y] + ys) == (if y.isNamed then [y] else []) + Named(ys)
  {
    assert ([y] + ys)[1..] == ys;
  }

  /** `node.namedChildren`. */
  function NamedChildren(n: Node): (r: seq<Node>)
    ensures forall i :: 0 <= i < |r| ==> r[i] in n.children && r[i].isNamed
    ensures forall c :: c in r ==> c in n.children
    ensures (forall c :: c in n.children ==> c.isNamed) ==> r == n.children
  {
    NamedAllLemma(n.children);
    Named(n.children)
  }

  lemma {:induction false} NamedAllLemma(ns: seq<Node>)
    ensures (forall c :: c in ns ==> c.isNamed) ==> Named(ns) == ns
  {
    if |ns| > 0 {
      NamedAllLemma(ns[1..]);
      assert [ns[0]] + ns[1..] == ns;
    }
  }

  /** `ns[i]`, which is `undefined` in JavaScript when `i` is out of range. */
  function At(ns: seq<Node>, i: nat): (r: Option<Node>)
    ensures r.Some? <==> i < |ns|
    ensures r.Some? ==> r.value == ns[i]
  {
    if i < |ns| then Some(ns[i]) else None
  }

  /** The node reached from `n` by taking, for each type in `kinds` in turn,
      the first named child of that type; `None` when a step finds nothing. */
  function Descend(n: Node, kinds: seq<string>): (r: Option<Node>)
    decreases |kinds|
    ensures r.Some? && |kinds| > 0 ==> r.value.kind == kinds[|kinds| - 1]
  {
    if |kinds| == 0 then Some(n)
    else
      match Find(NamedChildren(n), kinds[0])
      case None => None
      case Some(c) => Descend(c, kinds[1..])
  }

  /** One step of `Descend`: find the first child of the first type, then
      descend from it along the rest. */
  lemma DescendStep(n: Node, kinds: seq<string>)
    requires |kinds| > 0
    ensures Find(NamedChildren(n), kinds[0]).None? ==> Descend(n, kinds).None?
    ensures Find(NamedChildren(n), kinds[0]).Some? ==>
      Descend(n, kinds) == Descend(Find(NamedChildren(n), kinds[0]).value, kinds[1..])
  {
  }

  /** The position of the first node of `ns` with type `kind` whose position is
      not in `excluded`. JavaScript's `n !== other` compares node objects by
      identity; within one `namedChildren` array that is a comparison of positions. */
  function FindIndex(ns: seq<Node>, kind: string, excluded: seq<nat>): (r: Option<nat>)
    ensures r.Some? ==> r.value < |ns| && ns[r.value].kind == kind && r.value !in excluded
    ensures r.Some? ==> forall j :: 0 <= j < r.value && ns[j].kind == kind ==> j in excluded
    ensures r.None? ==> forall j :: 0 <= j < |ns| && ns[j].kind == kind ==> j in excluded
  {
    FindIndexFrom(ns, kind, excluded, 0)
  }

  function FindIndexFrom(ns: seq<Node>, kind: string, excluded: seq<nat>, from: nat): (r: Option<nat>)
    decreases |ns| - from
    ensures r.Some? ==> from <= r.value < |ns| && ns[r.value].kind == kind && r.value !in excluded
    ensures r.Some? ==> forall j :: from <= j < r.value && ns[j].kind == kind ==> j in excluded
    ensures r.None? ==> forall j :: from <= j < |ns| && ns[j].kind == kind ==> j in excluded
  {
    if from >= |ns| then None
    else if ns[from].kind == kind && from !in excluded then Some(from)
    else FindIndexFrom(ns, kind, excluded, from + 1)
  }

  /** `ns.find((n) => n.type === kind)`. */
  function Find(ns: seq<Node>, kind: string): (r: Option<Node>)
    ensures r.Some? ==> r.value in ns && r.value.kind == kind
    ensures r.None? <==> forall c :: c in ns ==> c.kind != kind
    ensures r.Some? ==> exists i :: 0 <= i < |ns| && ns[i] == r.value && forall j :: 0 <= j < i ==> ns[j].kind != kind
  {
    match FindIndex(ns, kind, [])
    case None => None
    case Some(i) =>
      assert forall j :: 0 <= j < i ==> ns[j].kind != kind;
      Some(ns[i])
  }

  /** The positions of the nodes of type `kind` in `ns`, from `from` on, in order. */
  function PositionsFrom(ns: seq<Node>, kind: string, from: nat): (r: seq<nat>)
    decreases |ns| - from
    ensures forall x :: 0 <= x < |r| ==> from <= r[x] < |ns| && ns[r[x]].kind == kind
    ensures forall x, y :: 0 <= x < y < |r| ==> r[x] < r[y]
    ensures forall j :: from <= j < |ns| && ns[j].kind == kind ==> j in r
  {
    if from >= |ns| then []
    else (if ns[from].kind == kind then [from] else []) + PositionsFrom(ns, kind, from + 1)
  }

  /** The positions of the nodes of type `kind` in `ns`, in order. */
  function Positions(ns: seq<Node>, kind: string): (r: seq<nat>)
    ensures forall x :: 0 <= x < |r| ==> r[x] < |ns| && ns[r[x]].kind == kind
    ensures forall x, y :: 0 <= x < y < |r| ==> r[x] < r[y]
    ensures forall j :: 0 <= j < |ns| && ns[j].kind == kind ==> j in r
  {
    PositionsFrom(ns, kind, 0)
  }

  /** `ns.filter((n) => n.type === kind)`. */
  function OfKind(ns: seq<Node>, kind: string): (r: seq<Node>)
    ensures |r| == |Positions(ns, kind)|
    ensures forall x :: 0 <= x < |r| ==> r[x] == ns[Positions(ns, kind)[x]]
  {
    var ps := Positions(ns, kind);
    seq(|ps|, x requires 0 <= x < |ps| => ns[ps[x]])
  }

  /** Searching past the first `m` positions of `kind` finds the next one:
      repeated `find`s that exclude earlier finds enumerate `Positions`. */
  lemma FindIndexNth(ns: seq<Node>, kind: string, m: nat)
    requires m <= |Positions(ns, kind)|
    ensures FindIndex(ns, kind, Positions(ns, kind)[..m])
         == if m < |Positions(ns, kind)| then Some(Positions(ns, kind)[m]) else None
  {
    var ps := Positions(ns, kind);
    var excluded := ps[..m];
    var r := FindIndex(ns, kind, excluded);
    if m < |ps| {
      assert ps[m] !in excluded;
      assert r.Some?;
      var x := r.value;
      assert x in ps;
      var l :| 0 <= l < |ps| && ps[l] == x;
      assert l >= m;
      assert x <= ps[m];
      assert l <= m;
    } else {
      assert excluded == ps;
      assert r.None?;
    }
  }

  /** The first three steps of that enumeration, with the exclusion lists
      written out as a caller builds them. */
  lemma FindFirst(ns: seq<Node>, kind: string)
    ensures var ps := Positions(ns, kind);
      FindIndex(ns, kind, []) == (if |ps| > 0 then Some(ps[0]) else None)
  {
    var ps := Positions(ns, kind);
    FindIndexNth(ns, kind, 0);
    assert ps[..0] == [];
  }

  lemma FindSecond(ns: seq<Node>, kind: string)
    requires |Positions(ns, kind)| > 0
    ensures var ps := Positions(ns, kind);
      FindIndex(ns, kind, [ps[0]]) == (if |ps| > 1 then Some(ps[1]) else None)
  {
    var ps := Positions(ns, kind);
    FindIndexNth(ns, kind, 1);
    assert ps[..1] == [ps[0]];
  }

  lemma FindThird(ns: seq<Node>, kind: string)
    requires |Positions(ns, kind)| > 1
    ensures var ps := Positions(ns, kind);
      FindIndex(ns, kind, [ps[0], ps[1]]) == (if |ps| > 2 then Some(ps[2]) else None)
  {
    var ps := Positions(ns, kind);
    FindIndexNth(ns, kind, 2);
    assert ps[..2] == [ps[0], ps[1]];
  }

  /** `ns.filter((n) => n.type !== a && n.type !== b)`. */
  function Without(ns: seq<Node>, a: string, b: string): (r: seq<Node>)
    ensures |r| <= |ns|
    ensures forall i :: 0 <= i < |r| ==> r[i] in ns && r[i].kind != a && r[i].kind != b
    ensures forall j :: 0 <= j < |ns| && ns[j].kind != a && ns[j].kind != b ==> ns[j] in r
  {
    if |ns| == 0 then []
    else (if ns[0].kind != a && ns[0].kind != b then [ns[0]] else []) + Without(ns[1..], a, b)
  }

  /** `filter` keeps the source order and multiplicity: appending a node
      appends it to the result exactly when it passes the filter. */
  lemma {:induction false} WithoutSnoc(ns: seq<Node>, x: Node, a: string, b: string)
    ensures Without(ns + [x], a, b) == Without(ns, a, b) + (if x.kind != a && x.kind != b then [x] else [])
  {
    if |ns| == 0 {
      assert ns + [x] == [x] + [];
      WithoutCons(x, [], a, b);
    } else {
      var y, ys := ns[0], ns[1..];
      assert ns == [y] + ys;
      assert ns + [x] == [y] + (ys + [x]);
      WithoutCons(y, ys + [x], a, b);
      WithoutSnoc(ys, x, a, b);
      WithoutCons(y, ys, a, b);
    }
  }

  /** One step of `filter`: the head is kept exactly when it passes. */
  lemma WithoutCons(y: Node, ys: seq<Node>, a: string, b: string)
    ensures Without([y] + ys, a, b) == (if y.kind != a && y.kind != b then [y] else []) + Without(ys, a, b)
  {
    assert ([y] + ys)[1..] == ys;
  }

  /** Dropping the opening and closing delimiters of a listing leaves its
      elements, in order, when no element has a delimiter's type. */
  lemma {:induction false} WithoutDelimiters(open: Node, xs: seq<Node>, close: Node, a: string, b: string)
    requires open.kind == a && close.kind == b
    requires forall i :: 0 <= i < |xs| ==> xs[i].kind != a && xs[i].kind != b
    ensures Without([open] + xs + [close], a, b) == xs
  {
    WithoutSnoc([open] + xs, close, a, b);
    assert ([open] + xs)[1..] == xs;
    WithoutKeepsAll(xs, a, b);
  }

  lemma {:induction false} WithoutKeepsAll(xs: seq<Node>, a: string, b: string)
    requires forall i :: 0 <= i < |xs| ==> xs[i].kind != a && xs[i].kind != b
    ensures Without(xs, a, b) == xs
  {
    if |xs| > 0 {
      WithoutKeepsAll(xs[1..], a, b);
      assert [xs[0]] + xs[1..] == xs;
    }
  }
}
