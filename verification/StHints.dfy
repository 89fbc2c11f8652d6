/** What the hints of an S-tree are for: which way a node leans, and, as long as insertions keep the tree level,
    its height. */
module StHints {
  import opened LinkedTree
  import opened TreeOrder
  import opened StSpec

  /** A node that leans by two or more is replaced at the top by its heavier child and hangs on the other side of it; no
      other node is. Its new hint is the greater chain of the children it then has. */
  lemma {:induction false} HeavierRises(t: STree)
    requires t.Bin? && Hints(t) && Distinct(t)
    ensures var t', lean := Balanced(t).0, Chain(t.l) - Chain(t.r);
      && t'.Bin?
      && (lean > 1 <==> t.l.Bin? && t'.n == t.l.n)
      && (lean < -1 <==> t.r.Bin? && t'.n == t.r.n)
      && var low := if lean > 1 then t'.r else if lean < -1 then t'.l else t';
         && low.Bin? && low.n == t.n && low.d == MaxHint(low.l, low.r) == Balanced(t).1
         && Nodes(t') == Nodes(t)
  {
  }

  ghost function Height(t: STree): nat {
    match t
    case Leaf => 0
    case Bin(l, _, _, r) => 1 + if Height(l) > Height(r) then Height(l) else Height(r)
  }

  /** The hint of every node is its height less one. */
  ghost predicate Exact(t: STree) {
    match t
    case Leaf => true
    case Bin(l, _, h, r) => h + 1 == Height(t) && Exact(l) && Exact(r)
  }

  /** The subtrees of every node differ by at most one in height. */
  ghost predicate Level(t: STree) {
    match t
    case Leaf => true
    case Bin(l, _, _, r) => -1 <= Height(l) - Height(r) <= 1 && Level(l) && Level(r)
  }

  /** The same tree, whatever the hints. */
  ghost predicate SameShape(t: STree, s: STree) {
    match t
    case Leaf => s.Leaf?
    case Bin(l, n, _, r) => s.Bin? && s.n == n && SameShape(l, s.l) && SameShape(r, s.r)
  }

  /** Every hint on the way up and beside it is right if the subtree at the hole has height `h`. */
  ghost predicate PathExact(p: SPath, h: nat) {
    match p
    case Top => true
    case L(up, _, d, r) => Exact(r) && d == (if h > Height(r) then h else Height(r)) && PathExact(up, d + 1)
    case R(l, _, d, up) => Exact(l) && d == (if h > Height(l) then h else Height(l)) && PathExact(up, d + 1)
  }

  lemma {:induction false} ExactChain(t: STree)
    requires Exact(t)
    ensures Chain(t) == Height(t)
  {
  }

  lemma {:induction false} PlugExact(p: SPath, t: STree)
    ensures Exact(Plug(p, t)) <==> Exact(t) && PathExact(p, Height(t))
  {
    match p
    case Top =>
    case L(up, n, d, r) => PlugExact(up, Bin(t, n, d, r));
    case R(l, n, d, up) => PlugExact(up, Bin(l, n, d, t));
  }

  lemma {:induction false} PlugLevel(p: SPath, t: STree)
    requires Level(Plug(p, t))
    ensures Level(t)
  {
    match p
    case Top =>
    case L(up, n, d, r) => PlugLevel(up, Bin(t, n, d, r));
    case R(l, n, d, up) => PlugLevel(up, Bin(l, n, d, t));
  }

  lemma {:induction false} SameShapeSelf(t: STree)
    ensures SameShape(t, t)
  {
    if t.Bin? {
      SameShapeSelf(t.l);
      SameShapeSelf(t.r);
    }
  }

  /** Hints do not matter for shape, height or level. */
  lemma {:induction false} ShapeHeight(t: STree, s: STree)
    requires SameShape(t, s)
    ensures Height(t) == Height(s) && (Level(t) <==> Level(s))
  {
    if t.Bin? {
      ShapeHeight(t.l, s.l);
      ShapeHeight(t.r, s.r);
    }
  }

  lemma {:induction false} ShapePlug(p: SPath, t: STree, s: STree)
    requires SameShape(t, s)
    ensures SameShape(Plug(p, t), Plug(p, s))
  {
    match p
    case Top =>
    case L(up, n, d, r) =>
      SameShapeSelf(r);
      ShapePlug(up, Bin(t, n, d, r), Bin(s, n, d, r));
    case R(l, n, d, up) =>
      SameShapeSelf(l);
      ShapePlug(up, Bin(l, n, d, t), Bin(l, n, d, s));
  }

  lemma {:induction false} ShapeTrans(t: STree, s: STree, u: STree)
    requires SameShape(t, s) && SameShape(s, u)
    ensures SameShape(t, u)
  {
    if t.Bin? {
      ShapeTrans(t.l, s.l, u.l);
      ShapeTrans(t.r, s.r, u.r);
    }
  }

  /** A level node with exact hints below it stays where it is and gets its height as hint. */
  lemma {:induction false} BalancedLevel(t: STree)
    requires t.Bin? && Exact(t.l) && Exact(t.r) && Level(t)
    ensures var (t', h) := Balanced(t);
      t' == t.(d := h) && Exact(t') && SameShape(t, t') && h + 1 == Height(t) && (h == 0 <==> t.l.Leaf? && t.r.Leaf?)
  {
    ExactChain(t.l);
    ExactChain(t.r);
    SameShapeSelf(t.l);
    SameShapeSelf(t.r);
  }

  /** Updating from a node whose height has changed makes all hints exact again and moves no node, if the tree is level.
      `was` is the height the hints above still stand for. */
  lemma {:induction false} UpdateLevel(p: SPath, t: STree, was: nat)
    requires t.Bin? && Exact(t.l) && Exact(t.r) && PathExact(p, was) && Level(Plug(p, t))
    requires was == t.d + 1 || (t.l.Leaf? && t.r.Leaf?)
    ensures Exact(Update(p, t)) && SameShape(Plug(p, t), Update(p, t))
    decreases p
  {
    var (t', h) := Balanced(t);
    PlugLevel(p, t);
    BalancedLevel(t);
    ShapePlug(p, t, t');
    if (h == 0 || h != t.d) && !p.Top? {
      var up := Fill(p, t');
      ShapeHeight(Plug(p, t), Plug(p, t'));
      assert Plug(p.up, up) == Plug(p, t');
      UpdateLevel(p.up, up, up.d + 1);
      ShapeTrans(Plug(p, t), Plug(p, t'), Update(p, t));
    } else {
      PlugExact(p, t');
    }
  }

  /** Inserting a node into a tree whose hints are its heights keeps them so, and rotates nothing, if that leaves the
      tree level. */
  lemma {:induction false} InsertLevel(p: SPath, n: SNode)
    requires Exact(Plug(p, Leaf)) && Level(Plug(p, Bin(Leaf, n, 0, Leaf)))
    ensures var s := Update(p, Bin(Leaf, n, 0, Leaf)); Exact(s) && SameShape(Plug(p, Bin(Leaf, n, 0, Leaf)), s)
  {
    PlugExact(p, Leaf);
    UpdateLevel(p, Bin(Leaf, n, 0, Leaf), 0);
  }
}
