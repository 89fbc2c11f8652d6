/** The leftmost node of a tree, the path down to it, and how paths are joined:
    what removing a node with two children needs. */
module TreeSpine {
  import opened LinkedTree
  import opened TreeOrder

  /** The leftmost node of a tree, with what hangs below it. */
  ghost function Min<D>(t: Tree<D>): (m: Tree<D>)
    requires t.Bin?
    ensures m.Bin? && m.l.Leaf?
  {
    if t.l.Leaf? then t else Min(t.l)
  }

  /** The position of `Min(t)`, continuing from the position `q` of `t`. */
  ghost function Spine<D>(q: Path<D>, t: Tree<D>): Path<D>
    requires t.Bin?
    decreases t
  {
    if t.l.Leaf? then q else Spine(L(q, t.n, t.d, t.r), t.l)
  }

  ghost function Append<D>(q: Path<D>, base: Path<D>): Path<D> {
    match q
    case Top => base
    case L(up, n, c, r) => L(Append(up, base), n, c, r)
    case R(l, n, c, up) => R(l, n, c, Append(up, base))
  }

  lemma {:induction false} SpinePlug<D>(q: Path<D>, t: Tree<D>)
    requires t.Bin?
    ensures Plug(Spine(q, t), Min(t)) == Plug(q, t)
    ensures Before(Spine(q, t)) == Before(q)
    decreases t
  {
    if t.l.Bin? {
      SpinePlug(L(q, t.n, t.d, t.r), t.l);
    }
  }

  lemma {:induction false} AppendPlug<D>(q: Path<D>, base: Path<D>, t: Tree<D>)
    ensures Plug(Append(q, base), t) == Plug(base, Plug(q, t))
    ensures Before(Append(q, base)) == Before(base) + Before(q)
    ensures After(Append(q, base)) == After(q) + After(base)
  {
    match q
    case Top =>
    case L(up, n, c, r) => AppendPlug(up, base, Bin(t, n, c, r));
    case R(l, n, c, up) => AppendPlug(up, base, Bin(l, n, c, t));
  }

  /** The successor moved up to where the erased node was: the order loses that node only. */
  lemma {:induction false} SuccessorInorder<D>(p: Path<D>, l: Tree<D>, d: D, r: Tree<D>, x: Tree<D>)
    requires r.Bin? && Inorder(x) == Inorder(Min(r).r)
    ensures Inorder(Plug(Append(Spine(Top, r), R(l, Min(r).n, d, p)), x))
         == (Before(p) + Inorder(l)) + (Inorder(r) + After(p))
  {
    var q, m := Spine(Top, r), Min(r);
    var base := R(l, m.n, d, p);
    SpinePlug(Top, r);
    PlugInorder(q, m);
    assert Inorder(r) == [m.n] + Inorder(m.r) + After(q);
    AppendPlug(q, base, x);
    PlugInorder(Append(q, base), x);
    SeqJoin(Before(p) + Inorder(l), [m.n], Inorder(x), After(q), After(p));
  }

  lemma {:induction false} SeqJoin<T>(b: seq<T>, m: seq<T>, x: seq<T>, a: seq<T>, c: seq<T>)
    ensures (b + m + []) + x + (a + c) == b + ((m + x + a) + c)
  {
  }

  // ----- paths below the erased node

  lemma {:induction false} AppendLinked<D>(q: Path<D>, base: Path<D>, hole: Node?<D>, mid: Node?<D>, top: Node?<D>, above: Node?<D>)
    requires RepPath(q, hole, mid, Under(base, above)) && RepPath(base, mid, top, above)
    ensures RepPath(Append(q, base), hole, top, above)
    ensures Under(Append(q, base), above) == Under(q, Under(base, above))
  {
    match q
    case Top =>
    case L(up, n, _, _) => AppendLinked(up, base, n, mid, top, above);
    case R(_, n, _, up) => AppendLinked(up, base, n, mid, top, above);
  }

  /** Walking up a joined path to where its two parts meet. */
  lemma {:induction false} LinkedAppend<D>(root: Root<D>, q: Path<D>, base: Path<D>, t: Tree<D>)
    requires Linked(root, Append(q, base), t)
    ensures Linked(root, base, Plug(q, t))
  {
    match q
    case Top =>
    case L(up, n, d, r) =>
      LinkedFill(root, Append(q, base), t);
      LinkedAppend(root, up, base, Bin(t, n, d, r));
    case R(l, n, d, up) =>
      LinkedFill(root, Append(q, base), t);
      LinkedAppend(root, up, base, Bin(l, n, d, t));
  }

  lemma {:induction false} SpineAppend<D>(q: Path<D>, t: Tree<D>)
    requires t.Bin?
    ensures Spine(q, t) == Append(Spine(Top, t), q)
    decreases t
  {
    if t.l.Bin? {
      SpineAppend(L(q, t.n, t.d, t.r), t.l);
      SpineAppend(L(Top, t.n, t.d, t.r), t.l);
      AppendAppend(Spine(Top, t.l), L(Top, t.n, t.d, t.r), q);
    }
  }

  lemma {:induction false} AppendAppend<D>(a: Path<D>, b: Path<D>, c: Path<D>)
    ensures Append(Append(a, b), c) == Append(a, Append(b, c))
  {
    match a
    case Top =>
    case L(up, _, _, _) => AppendAppend(up, b, c);
    case R(_, _, _, up) => AppendAppend(up, b, c);
  }

  /** The erased node, the subtree `l` it passes on, and the node `s` cut out of its other
      subtree share nothing: `q` is the path down to `s`, and `x` what hangs below `s`. */
  ghost predicate Parts<D>(p: Path<D>, l: Tree<D>, node: Node<D>, q: Path<D>, s: Node<D>, x: Tree<D>) {
    && s != node && DistinctPath(p) && DistinctPath(q) && Distinct(l) && Distinct(x)
    && node !in PathNodes(p) && node !in PathNodes(q) && node !in Nodes(l) && node !in Nodes(x)
    && s !in PathNodes(p) && s !in PathNodes(q) && s !in Nodes(l) && s !in Nodes(x)
    && PathNodes(p) !! PathNodes(q) && PathNodes(p) !! Nodes(l) && PathNodes(p) !! Nodes(x)
    && PathNodes(q) !! Nodes(l) && PathNodes(q) !! Nodes(x) && Nodes(l) !! Nodes(x)
  }

  lemma {:induction false} SpineParts<D>(p: Path<D>, l: Tree<D>, node: Node<D>, d: D, r: Tree<D>)
    requires r.Bin? && Separate(p, Bin(l, node, d, r))
    ensures Parts(p, l, node, Spine(Top, r), Min(r).n, Min(r).r)
    ensures Nodes(r) == PathNodes(Spine(Top, r)) + {Min(r).n} + Nodes(Min(r).r)
  {
    SpinePlug(Top, r);
    PlugNodes(Spine(Top, r), Min(r));
    DistinctSeparate(Spine(Top, r), Min(r));
  }

  /** The right child is itself the successor, or the successor hangs left below it. */
  lemma {:induction false} SpineOfLeft<D>(r: Tree<D>)
    requires r.Bin? && r.l.Bin?
    ensures Spine(Top, r) == Append(Spine(Top, r.l), L(Top, r.n, r.d, r.r)) && Min(r) == Min(r.l)
    ensures Spine(Top, r.l).Top? || Spine(Top, r.l).L?
    decreases r
  {
    SpineAppend(L(Top, r.n, r.d, r.r), r.l);
    if r.l.l.Bin? {
      SpineOfLeft(r.l);
      AppendL(Spine(Top, r.l.l), r.l.n, r.l.d, r.l.r);
    }
  }

  lemma {:induction false} AppendL<D>(q: Path<D>, n: Node<D>, d: D, x: Tree<D>)
    requires q.Top? || q.L?
    ensures Append(q, L(Top, n, d, x)).L?
  {
  }

  lemma {:induction false} DetachParts<D>(r: Tree<D>)
    requires r.Bin? && r.l.Bin? && Distinct(r)
    ensures var q, m := Spine(Top, r.l), Min(r.l);
      && r.n != m.n && DistinctPath(q) && Distinct(m)
      && r.n !in PathNodes(q) && r.n !in Nodes(m.r) && r.n !in Nodes(r.r)
      && m.n !in PathNodes(q) && m.n !in Nodes(m.r) && m.n !in Nodes(r.r)
      && PathNodes(q) !! Nodes(m.r) && PathNodes(q) !! Nodes(r.r) && Nodes(m.r) !! Nodes(r.r)
      && PathNodes(q) <= Nodes(r.l) && m.n in Nodes(r.l) && Nodes(m.r) <= Nodes(r.l)
  {
    var q, m := Spine(Top, r.l), Min(r.l);
    SpinePlug(Top, r.l);
    PlugNodes(q, m);
    DistinctSeparate(q, m);
  }

  // ----- the mirror image: the rightmost node

  /** The rightmost node of a tree, with what hangs below it. */
  ghost function Max<D>(t: Tree<D>): (m: Tree<D>)
    requires t.Bin?
    ensures m.Bin? && m.r.Leaf?
  {
    if t.r.Leaf? then t else Max(t.r)
  }

  /** The position of `Max(t)`, continuing from the position `q` of `t`. */
  ghost function RightSpine<D>(q: Path<D>, t: Tree<D>): Path<D>
    requires t.Bin?
    decreases t
  {
    if t.r.Leaf? then q else RightSpine(R(t.l, t.n, t.d, q), t.r)
  }

  lemma {:induction false} RightSpinePlug<D>(q: Path<D>, t: Tree<D>)
    requires t.Bin?
    ensures Plug(RightSpine(q, t), Max(t)) == Plug(q, t)
    ensures After(RightSpine(q, t)) == After(q)
    decreases t
  {
    if t.r.Bin? {
      RightSpinePlug(R(t.l, t.n, t.d, q), t.r);
    }
  }

  /** The greatest node comes last. */
  lemma {:induction false} MaxInorder<D>(l: Tree<D>)
    requires l.Bin?
    ensures After(RightSpine(Top, l)) == [] && Inorder(l) == Before(RightSpine(Top, l)) + Inorder(Max(l).l) + [Max(l).n]
  {
    RightSpinePlug(Top, l);
    PlugInorder(RightSpine(Top, l), Max(l));
  }

  /** The predecessor moved up to where the erased node was: the order loses that node only. */
  lemma {:induction false} PredecessorInorder<D>(p: Path<D>, l: Tree<D>, d: D, r: Tree<D>, x: Tree<D>)
    requires l.Bin? && Inorder(x) == Inorder(Max(l).l)
    ensures Inorder(Plug(Append(RightSpine(Top, l), L(p, Max(l).n, d, r)), x))
         == (Before(p) + Inorder(l)) + (Inorder(r) + After(p))
  {
    var q, m := RightSpine(Top, l), Max(l);
    var base := L(p, m.n, d, r);
    MaxInorder(l);
    AppendPlug(q, base, x);
    PlugInorder(Append(q, base), x);
    SeqJoinLeft(Before(p), Before(q), Inorder(x), [m.n], Inorder(r) + After(p));
  }

  lemma {:induction false} SeqJoinLeft<T>(b: seq<T>, a: seq<T>, x: seq<T>, m: seq<T>, c: seq<T>)
    ensures (b + a) + x + ([] + (m + c)) == (b + (a + x + m)) + c
  {
  }

  lemma {:induction false} RightSpineAppend<D>(q: Path<D>, t: Tree<D>)
    requires t.Bin?
    ensures RightSpine(q, t) == Append(RightSpine(Top, t), q)
    decreases t
  {
    if t.r.Bin? {
      RightSpineAppend(R(t.l, t.n, t.d, q), t.r);
      RightSpineAppend(R(t.l, t.n, t.d, Top), t.r);
      AppendAppend(RightSpine(Top, t.r), R(t.l, t.n, t.d, Top), q);
    }
  }

  lemma {:induction false} RightSpineParts<D>(p: Path<D>, l: Tree<D>, node: Node<D>, d: D, r: Tree<D>)
    requires l.Bin? && Separate(p, Bin(l, node, d, r))
    ensures Parts(p, r, node, RightSpine(Top, l), Max(l).n, Max(l).l)
    ensures Nodes(l) == PathNodes(RightSpine(Top, l)) + {Max(l).n} + Nodes(Max(l).l)
  {
    RightSpinePlug(Top, l);
    PlugNodes(RightSpine(Top, l), Max(l));
    DistinctSeparate(RightSpine(Top, l), Max(l));
  }

  /** The left child is itself the predecessor, or the predecessor hangs right below it. */
  lemma {:induction false} RightSpineOfRight<D>(r: Tree<D>)
    requires r.Bin? && r.r.Bin?
    ensures RightSpine(Top, r) == Append(RightSpine(Top, r.r), R(r.l, r.n, r.d, Top)) && Max(r) == Max(r.r)
    ensures RightSpine(Top, r.r).Top? || RightSpine(Top, r.r).R?
    decreases r
  {
    RightSpineAppend(R(r.l, r.n, r.d, Top), r.r);
    if r.r.r.Bin? {
      RightSpineOfRight(r.r);
      AppendR(RightSpine(Top, r.r.r), r.r.n, r.r.d, r.r.l);
    }
  }

  lemma {:induction false} AppendR<D>(q: Path<D>, n: Node<D>, d: D, x: Tree<D>)
    requires q.Top? || q.R?
    ensures Append(q, R(x, n, d, Top)).R?
  {
  }

  lemma {:induction false} RightDetachParts<D>(r: Tree<D>)
    requires r.Bin? && r.r.Bin? && Distinct(r)
    ensures var q, m := RightSpine(Top, r.r), Max(r.r);
      && r.n != m.n && DistinctPath(q) && Distinct(m)
      && r.n !in PathNodes(q) && r.n !in Nodes(m.l) && r.n !in Nodes(r.l)
      && m.n !in PathNodes(q) && m.n !in Nodes(m.l) && m.n !in Nodes(r.l)
      && PathNodes(q) !! Nodes(m.l) && PathNodes(q) !! Nodes(r.l) && Nodes(m.l) !! Nodes(r.l)
      && PathNodes(q) <= Nodes(r.r) && m.n in Nodes(r.r) && Nodes(m.l) <= Nodes(r.r)
  {
    var q, m := RightSpine(Top, r.r), Max(r.r);
    RightSpinePlug(Top, r.r);
    PlugNodes(q, m);
    DistinctSeparate(q, m);
  }
}
