/** What a tree means apart from its shape: the nodes in key order, and the set of keys. */
module TreeOrder {
  import opened LinkedTree

  function Inorder<D>(t: Tree<D>): seq<Node<D>> {
    match t
    case Leaf => []
    case Bin(l, n, _, r) => Inorder(l) + [n] + Inorder(r)
  }

  /** The nodes left of the hole of a path. */
  ghost function Before<D>(p: Path<D>): seq<Node<D>> {
    match p
    case Top => []
    case L(up, _, _, _) => Before(up)
    case R(l, n, _, up) => Before(up) + Inorder(l) + [n]
  }

  /** The nodes right of the hole of a path. */
  ghost function After<D>(p: Path<D>): seq<Node<D>> {
    match p
    case Top => []
    case L(up, n, _, r) => [n] + Inorder(r) + After(up)
    case R(_, _, _, up) => After(up)
  }

  lemma {:induction false} PlugInorder<D>(p: Path<D>, t: Tree<D>)
    ensures Inorder(Plug(p, t)) == Before(p) + Inorder(t) + After(p)
  {
    match p
    case Top =>
    case L(up, n, d, r) => PlugInorder(up, Bin(t, n, d, r));
    case R(l, n, d, up) => PlugInorder(up, Bin(l, n, d, t));
  }

  lemma {:induction false} SameInorder<D>(p: Path<D>, t: Tree<D>, u: Tree<D>)
    requires Inorder(t) == Inorder(u)
    ensures Inorder(Plug(p, t)) == Inorder(Plug(p, u))
  {
    PlugInorder(p, t);
    PlugInorder(p, u);
  }

  lemma {:induction false} SeqAssoc<T>(a: seq<T>, b: seq<T>, c: seq<T>)
    ensures (a + b) + c == a + (b + c)
  {
  }

  /** A single rotation keeps the order, whatever the data in the nodes become. */
  lemma {:induction false} RotateInorder<D>(a: Tree<D>, x: Node<D>, b: Tree<D>, y: Node<D>, c: Tree<D>, d: D, e: D, f: D, g: D)
    ensures Inorder(Bin(Bin(a, x, d, b), y, e, c)) == Inorder(Bin(a, x, f, Bin(b, y, g, c)))
  {
    SeqAssoc(Inorder(a) + [x], Inorder(b), [y]);
    SeqAssoc(Inorder(a) + [x], Inorder(b) + [y], Inorder(c));
  }

  lemma {:induction false} InorderAround<D>(p: Path<D>, t: Tree<D>)
    requires t.Bin?
    ensures Inorder(Plug(p, t)) == (Before(p) + Inorder(t.l)) + [t.n] + (Inorder(t.r) + After(p))
  {
    PlugInorder(p, t);
    FiveParts(Before(p), Inorder(t.l), [t.n], Inorder(t.r), After(p));
  }

  lemma {:induction false} FiveParts<T>(b: seq<T>, i: seq<T>, n: seq<T>, j: seq<T>, a: seq<T>)
    ensures b + (i + n + j) + a == (b + i) + n + (j + a)
  {
  }

  ghost predicate Sorted<D>(s: seq<Node<D>>) {
    forall i, j :: 0 <= i < j < |s| ==> s[i].value < s[j].value
  }

  ghost predicate Below<D>(a: seq<Node<D>>, b: seq<Node<D>>) {
    forall x, y :: x in a && y in b ==> x.value < y.value
  }

  lemma {:induction false} SortedAppend<D>(a: seq<Node<D>>, b: seq<Node<D>>)
    ensures Sorted(a + b) <==> Sorted(a) && Sorted(b) && Below(a, b)
  {
    var s := a + b;
    assert forall i :: 0 <= i < |a| ==> a[i] == s[i];
    assert forall i :: 0 <= i < |b| ==> b[i] == s[|a| + i];
    if Sorted(s) {
      forall i, j | 0 <= i < j < |b| ensures b[i].value < b[j].value {
        assert b[i] == s[|a| + i] && b[j] == s[|a| + j];
      }
    }
  }

  /** A node fits at a place in a sorted sequence exactly if it lies between the two sides. */
  lemma {:induction false} SortedAround<D>(a: seq<Node<D>>, n: Node<D>, b: seq<Node<D>>)
    ensures Sorted(a + [n] + b) <==>
            && Sorted(a + b)
            && (forall x :: x in a ==> x.value < n.value)
            && (forall x :: x in b ==> n.value < x.value)
  {
    assert a + [n] + b == a + ([n] + b);
    SortedAppend(a, [n] + b);
    SortedAppend([n], b);
    SortedAppend(a, b);
    assert n in [n];
    if Sorted(a + [n] + b) {
      assert n in [n] + b;
    }
    if (forall x :: x in a ==> x.value < n.value) && (forall x :: x in b ==> n.value < x.value) && Sorted(a + b) {
      assert Below(a, [n] + b);
    }
  }

  ghost predicate Search<D>(t: Tree<D>) {
    Sorted(Inorder(t))
  }

  ghost function KeysOf<D>(s: seq<Node<D>>): set<int> {
    set n | n in s :: n.value
  }

  ghost function Keys<D>(t: Tree<D>): set<int> {
    KeysOf(Inorder(t))
  }

  lemma {:induction false} KeysAppend<D>(a: seq<Node<D>>, n: Node<D>, b: seq<Node<D>>)
    ensures KeysOf(a + [n] + b) == KeysOf(a + b) + {n.value}
  {
    assert forall x :: x in a + [n] + b <==> x == n || x in a + b;
  }

  lemma {:induction false} InorderNodes<D>(t: Tree<D>)
    ensures forall x :: x in Inorder(t) ==> x in Nodes(t)
    ensures forall x :: x in Nodes(t) ==> x in Inorder(t)
  {
    match t
    case Leaf =>
    case Bin(l, n, _, r) => InorderNodes(l); InorderNodes(r);
  }

  lemma {:induction false} SortedParts<D>(l: Tree<D>, n: Node<D>, r: Tree<D>)
    requires Sorted(Inorder(l) + [n] + Inorder(r))
    ensures Search(l) && Search(r)
    ensures forall x :: x in Nodes(l) ==> x.value < n.value
    ensures forall x :: x in Nodes(r) ==> n.value < x.value
  {
    SortedAround(Inorder(l), n, Inorder(r));
    SortedAppend(Inorder(l), Inorder(r));
    InorderNodes(l);
    InorderNodes(r);
  }

  lemma {:induction false} SearchDistinct<D>(t: Tree<D>)
    requires Search(t)
    ensures Distinct(t)
  {
    match t
    case Leaf =>
    case Bin(l, n, d, r) =>
      SortedParts(l, n, r);
      SearchDistinct(l);
      SearchDistinct(r);
  }

  /** Nodes in strict key order cannot be shared: in a search tree every position is separate. */
  lemma {:induction false} SearchSeparate<D>(p: Path<D>, t: Tree<D>)
    requires Search(Plug(p, t))
    ensures Separate(p, t)
  {
    SearchDistinct(Plug(p, t));
    DistinctSeparate(p, t);
  }

  lemma {:induction false} DistinctSeparate<D>(p: Path<D>, t: Tree<D>)
    requires Distinct(Plug(p, t))
    ensures Separate(p, t)
  {
    match p
    case Top =>
    case L(up, n, d, r) => DistinctSeparate(up, Bin(t, n, d, r));
    case R(l, n, d, up) => DistinctSeparate(up, Bin(l, n, d, t));
  }

  ghost function NodeSet<D>(t: Tree<D>): set<Node<D>> {
    set n | n in Inorder(t)
  }

  /** The two ways to collect the nodes agree, also from a position. */
  lemma {:induction false} SameNodes<D>(p: Path<D>, t: Tree<D>)
    ensures NodeSet(Plug(p, t)) == Nodes(Plug(p, t)) == PathNodes(p) + Nodes(t)
  {
    InorderNodes(Plug(p, t));
    PlugNodes(p, t);
  }

  /** The key `a` belongs between the two sides of the hole of `p`. */
  ghost predicate Between<D>(p: Path<D>, a: int) {
    && (forall n :: n in Before(p) ==> n.value < a)
    && (forall n :: n in After(p) ==> a < n.value)
  }

  /** In a search tree the nodes around `t.n` are ordered around it. */
  lemma {:induction false} AroundNode<D>(p: Path<D>, t: Tree<D>)
    requires t.Bin? && Search(Plug(p, t))
    ensures forall n :: n in Before(p) + Inorder(t.l) ==> n.value < t.n.value
    ensures forall n :: n in Inorder(t.r) + After(p) ==> t.n.value < n.value
  {
    var b, a := Before(p) + Inorder(t.l), Inorder(t.r) + After(p);
    InorderAround(p, t);
    SortedAround(b, t.n, a);
  }

  /** Going left or right by comparing with the key at hand keeps `a` between the two sides. */
  lemma {:induction false} DescendBetween<D>(p: Path<D>, t: Tree<D>, a: int)
    requires t.Bin? && Search(Plug(p, t)) && Between(p, a)
    ensures a < t.n.value ==> Between(L(p, t.n, t.d, t.r), a)
    ensures a > t.n.value ==> Between(R(t.l, t.n, t.d, p), a)
  {
    AroundNode(p, t);
  }

  /** At a hole that `n` fits into, its key is missing, and hanging `n` there keeps the order. */
  lemma {:induction false} HoleAdds<D>(p: Path<D>, n: Node<D>, d: D)
    requires Search(Plug(p, Leaf)) && Between(p, n.value)
    ensures n.value !in Keys(Plug(p, Leaf))
    ensures Search(Plug(p, Bin(Leaf, n, d, Leaf)))
    ensures Keys(Plug(p, Bin(Leaf, n, d, Leaf))) == Keys(Plug(p, Leaf)) + {n.value}
  {
    var b, a := Before(p), After(p);
    assert Inorder(Plug(p, Leaf)) == b + a by { PlugInorder(p, Leaf); }
    assert Inorder(Plug(p, Bin(Leaf, n, d, Leaf))) == b + [n] + a by { PlugInorder(p, Bin(Leaf, n, d, Leaf)); }
    KeysAppend(b, n, a);
    SortedAround(b, n, a);
  }

  lemma {:induction false} HoleMissing<D>(p: Path<D>, a: int)
    requires Between(p, a)
    ensures a !in Keys(Plug(p, Leaf))
  {
    PlugInorder(p, Leaf);
  }

  /** Taking one node out of the order keeps the rest in order and removes its key alone. */
  lemma {:induction false} OneRemoved<D>(a: seq<Node<D>>, n: Node<D>, b: seq<Node<D>>)
    requires Sorted(a + [n] + b)
    ensures Sorted(a + b)
    ensures KeysOf(a + b) == KeysOf(a + [n] + b) - {n.value}
  {
    SortedAround(a, n, b);
    KeysAppend(a, n, b);
  }

  /** A node found with a key witnesses that key. */
  lemma {:induction false} FoundKey<D>(p: Path<D>, t: Tree<D>)
    requires t.Bin?
    ensures t.n.value in Keys(Plug(p, t))
  {
    PlugInorder(p, t);
    assert t.n in Inorder(Plug(p, t));
  }
}
