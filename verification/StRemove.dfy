/** `st_replace_right`, `st_replace_left` and `__st_remove` on the pointers. */
module StRemove {
  import opened LinkedTree
  import opened TreeOrder
  import opened TreeSpine
  import opened StSpec
  import opened StUpdate

  /** `st_first` */
  method First(n: SNode, ghost above: Node?<int>, ghost t: STree) returns (m: SNode)
    requires t.Bin? && Rep(t, n, above)
    ensures m == Min(t).n && RepPath(Spine(Top, t), m, n, above)
    ensures Rep(Min(t), m, Under(Spine(Top, t), above))
    decreases t
  {
    assert Rep(t.l, n.left, n);
    NodesExist(t.r);
    if n.left == null {
      return n;
    }
    m := First(n.left, n, t.l);
    SpineAppend(L(Top, n, t.d, t.r), t.l);
    AppendLinked(Spine(Top, t.l), L(Top, n, t.d, t.r), m, n.left, n, above);
  }

  /** The first part of `st_replace_right`: the least node `r`, when it is not the right child of `n`, is cut out;
      `q` leads from `child`, the right child of `n`, down to it, and `x` hangs right of it. */
  method Unhook(n: SNode, r: SNode, rp: SNode, ghost far: bool, ghost child: SNode, ghost q: SPath, ghost x: STree, ghost c: STree)
    requires rp == r.parent && Rep(x, r.right, r)
    requires !far ==> rp == n && n.left != r && n.parent != n
    requires far ==> rp == Under(q, child) && RepPath(q, r, child.left, child) && (q.Top? || q.L?)
    requires far ==> DistinctPath(q) && Distinct(x) && child.parent == n && Rep(c, child.right, child)
    requires far ==> n != r && n != child && r != child && n !in PathNodes(q) && r !in PathNodes(q) && child !in PathNodes(q)
    requires far ==> r !in Nodes(x) && child !in Nodes(x) && r !in Nodes(c) && child !in Nodes(c)
    requires far ==> PathNodes(q) !! Nodes(x) && PathNodes(q) !! Nodes(c) && Nodes(c) !! Nodes(x)
    modifies if far then {rp} + Nodes(x) else {}
    ensures far ==> RepPath(q, r.right, child.left, child) && Rep(x, r.right, rp) && Rep(c, child.right, child)
    ensures far ==> child.data == old(child.data) && (child.parent == n || child.parent == r)
  {
    if rp.left == r {
      NodesExist(c); PathNodesExist(q);
      rp.left := r.right;
      Adopt(r.right, rp, x, r);
      assert Rep(c, child.right, child);
    }
    if rp.parent == n {
      rp.parent := r;
    }
  }

  /** The second part: `r` takes over the links of `n` to its parent and children. */
  method TakeRight(n: SNode, r: SNode, ghost far: bool, ghost child: SNode, ghost q: SPath, ghost hole: Node?<int>,
                   ghost x: STree, ghost c: STree)
    requires hole == r.right && n != r && r !in Nodes(x)
    requires !far ==> n.right == r && Rep(x, hole, r)
    requires far ==> n.right == child && child != r && child != n && RepPath(q, hole, child.left, child) && Rep(c, child.right, child)
    requires far ==> n !in PathNodes(q) && r !in PathNodes(q) && child !in PathNodes(q)
    requires far ==> r !in Nodes(c) && child !in Nodes(c) && child !in Nodes(x) && Rep(x, hole, Under(q, child))
    modifies r, if far then {child} else {}
    ensures r.parent == n.parent && r.left == n.left && r.data == old(r.data)
    ensures !far ==> r.right == hole && Rep(x, hole, r)
    ensures far ==> Rep(x, hole, Under(q, child))
    ensures far ==> r.right == child && RepPath(Append(q, L(Top, child, old(child.data), c)), hole, child, r)
  {
    r.parent := n.parent;
    r.left := n.left;
    if n.right != r {
      r.right := n.right;
      n.right.parent := r;
    }
    if far {
      AppendLinked(q, L(Top, child, old(child.data), c), hole, child.left, child, r);
    }
  }

  /** The least node of the right subtree `t` is either `t.n` or reached from it by going left. */
  lemma {:induction false} LeastPosition(t: STree, r: SNode, n: SNode)
    requires t.Bin? && Rep(t, n.right, n)
    requires RepPath(Spine(Top, t), r, n.right, n) && Rep(Min(t), r, Under(Spine(Top, t), n))
    ensures t.l.Leaf? ==> n.right == r && r.parent == n && Rep(Min(t).r, r.right, r)
    ensures t.l.Bin? ==> t.n.parent == n && Rep(t.r, t.n.right, t.n)
    ensures t.l.Bin? ==> var q := Spine(Top, t.l);
      RepPath(q, r, t.n.left, t.n) && r.parent == Under(q, t.n) && Rep(Min(t).r, r.right, r)
  {
    if t.l.Bin? {
      SpineOfLeft(t);
      AppendSplits(Spine(Top, t.l), L(Top, t.n, t.d, t.r), r, n.right, n);
    }
  }

  /** The converse of joining paths. */
  lemma {:induction false} AppendSplits(q: SPath, base: SPath, hole: Node?<int>, top: Node?<int>, above: Node?<int>)
    requires base.L? && base.up.Top? && RepPath(Append(q, base), hole, top, above)
    ensures RepPath(q, hole, base.n.left, base.n) && RepPath(base, base.n.left, top, above)
    ensures Under(Append(q, base), above) == Under(q, base.n)
  {
    match q
    case Top =>
    case L(up, n, _, _) => AppendSplits(up, base, n, top, above);
    case R(_, n, _, up) => AppendSplits(up, base, n, top, above);
  }

  /** The two trees and paths that `st_replace_right` works on share nothing. */
  lemma {:induction false} ReplaceApart(p: SPath, l: STree, n: SNode, d: int, t: STree)
    requires t.Bin? && Separate(p, Bin(l, n, d, t))
    ensures Parts(p, l, n, Spine(Top, t), Min(t).n, Min(t).r)
    ensures Distinct(t) && n !in Nodes(t) && Nodes(l) !! Nodes(t) && PathNodes(p) !! Nodes(t)
    ensures {Min(t).n} + Nodes(Min(t).r) <= Nodes(t)
  {
    SpineParts(p, l, n, d, t);
  }

  /** Where `r` hangs and what it shares, gathered for `Lift`. */
  lemma {:induction false} LiftFacts(n: SNode, r: SNode, t: STree)
    requires t.Bin? && r == Min(t).n && Rep(t, n.right, n) && Distinct(t) && n !in Nodes(t)
    requires RepPath(Spine(Top, t), r, n.right, n) && Rep(Min(t), r, Under(Spine(Top, t), n))
    ensures Rep(Min(t).r, r.right, r) && r !in Nodes(Min(t).r) && r in Nodes(t) && Nodes(Min(t).r) <= Nodes(t)
    ensures t.l.Leaf? ==> n.right == r && r.parent == n && Spine(Top, t).Top?
    ensures t.l.Bin? ==> var q, x, child := Spine(Top, t.l), Min(t).r, t.n;
      && r.parent == Under(q, child) && RepPath(q, r, child.left, child) && (q.Top? || q.L?)
      && DistinctPath(q) && Distinct(x) && child.parent == n && Rep(t.r, child.right, child)
      && r != child && n !in PathNodes(q) && r !in PathNodes(q) && child !in PathNodes(q)
      && child !in Nodes(x) && r !in Nodes(t.r) && child !in Nodes(t.r)
      && PathNodes(q) !! Nodes(x) && PathNodes(q) !! Nodes(t.r) && Nodes(t.r) !! Nodes(x)
      && n.right == child && PathNodes(q) <= Nodes(t) && Under(q, child) in Nodes(t)
      && Spine(Top, t) == Append(q, L(Top, child, t.d, t.r))
  {
    LeastPosition(t, r, n);
    if t.l.Bin? {
      DetachParts(t);
      SpineOfLeft(t);
      assert Distinct(Min(t.l));
    }
  }

  /** `st_replace_right` but for the link from above and the left child. */
  method Lift(n: SNode, r: SNode, ghost t: STree) returns (ghost hole: Node?<int>)
    requires t.Bin? && r == Min(t).n && Rep(t, n.right, n) && Distinct(t) && n !in Nodes(t) && n != r
    requires RepPath(Spine(Top, t), r, n.right, n) && Rep(Min(t), r, Under(Spine(Top, t), n))
    requires n.left != r && n.parent != n
    modifies Nodes(t)
    ensures RepPath(Spine(Top, t), hole, r.right, r) && Rep(Min(t).r, hole, Under(Spine(Top, t), r))
    ensures r.parent == n.parent && r.left == n.left && r.data == Min(t).d
  {
    LiftFacts(n, r, t);
    NodesExist(t);
    ghost var far, x := t.l.Bin?, Min(t).r;
    ghost var q := if far then Spine(Top, t.l) else Top;
    var rp := r.parent;
    hole := r.right;
    Unhook(n, r, rp, far, t.n, q, x, t.r);
    TakeRight(n, r, far, t.n, q, hole, x, t.r);
  }

  /** The end of both replacements: the slot above `n`, and what hangs on its other side, go over to `r`.
      Below `r` nothing changes: there `q` leads down from `top` to `hole`, where `x` hangs. */
  method HandOver(n: SNode, r: SNode, tmp: Node?<int>, parent: Node?<int>, root: SRoot, ghost p: SPath, ghost s: STree,
                  ghost q: SPath, ghost hole: Node?<int>, ghost top: Node?<int>, ghost x: STree)
    requires DistinctPath(p) && n !in PathNodes(p) && parent == Under(p, null)
    requires if p.Top? then root.node == r else RepPath(p, n, root.node, null)
    requires Distinct(s) && Rep(s, tmp, n) && RepPath(q, hole, top, r) && Rep(x, hole, Under(q, r))
    requires PathNodes(p) !! Nodes(s) && PathNodes(p) + Nodes(s) !! PathNodes(q) + Nodes(x)
    modifies PathNodes(p), Nodes(s)
    ensures RepPath(p, r, root.node, null) && Rep(s, tmp, r) && RepPath(q, hole, top, r) && Rep(x, hole, Under(q, r))
  {
    NodesExist(s); PathNodesExist(p); PathNodesExist(q); NodesExist(x);
    ChangeSlot(n, r, parent, root, p);
    Adopt(tmp, r, s, n);
  }

  /** `st_replace_right`: the least node `r` of the right subtree takes the place of `n`. */
  method ReplaceRight(n: SNode, r: SNode, root: SRoot, ghost p: SPath, ghost l: STree, ghost d: int, ghost t: STree)
    requires t.Bin? && r == Min(t).n && Separate(p, Bin(l, n, d, t))
    requires Rep(t, n.right, n) && Rep(l, n.left, n) && n.parent == Under(p, null)
    requires RepPath(Spine(Top, t), r, n.right, n) && Rep(Min(t), r, Under(Spine(Top, t), n))
    requires if p.Top? then root.node == r else RepPath(p, n, root.node, null)
    modifies Nodes(l), Nodes(t), PathNodes(p)
    ensures Linked(root, R(l, r, Min(t).d, p), Plug(Spine(Top, t), Min(t).r))
    ensures r.right == At(Plug(Spine(Top, t), Min(t).r))
  {
    ReplaceApart(p, l, n, d, t);
    NodesExist(l); NodesExist(t); PathNodesExist(p);
    var parent := n.parent;
    ghost var hole := Lift(n, r, t);
    HandOver(n, r, n.left, parent, root, p, l, Spine(Top, t), hole, r.right, Min(t).r);
    AppendLinked(Spine(Top, t), R(l, r, Min(t).d, p), hole, r.right, root.node, null);
    LinkedAppend(root, Spine(Top, t), R(l, r, Min(t).d, p), Min(t).r);
  }

  // ----- the mirror images

  /** `st_last` */
  method Last(n: SNode, ghost above: Node?<int>, ghost t: STree) returns (m: SNode)
    requires t.Bin? && Rep(t, n, above)
    ensures m == Max(t).n && RepPath(RightSpine(Top, t), m, n, above)
    ensures Rep(Max(t), m, Under(RightSpine(Top, t), above))
    decreases t
  {
    assert Rep(t.r, n.right, n);
    NodesExist(t.l);
    if n.right == null {
      return n;
    }
    m := Last(n.right, n, t.r);
    RightSpineAppend(R(t.l, n, t.d, Top), t.r);
    AppendLinked(RightSpine(Top, t.r), R(t.l, n, t.d, Top), m, n.right, n, above);
  }

  /** The first part of `st_replace_left`: the greatest node `m`, when it is not the left child of `n`, is cut out;
      `q` leads from `child`, the left child of `n`, down to it, and `x` hangs left of it. */
  method UnhookMost(n: SNode, m: SNode, rp: SNode, ghost far: bool, ghost child: SNode, ghost q: SPath, ghost x: STree, ghost c: STree)
    requires rp == m.parent && Rep(x, m.left, m)
    requires !far ==> rp == n && n.right != m && n.parent != n
    requires far ==> rp == Under(q, child) && RepPath(q, m, child.right, child) && (q.Top? || q.R?)
    requires far ==> DistinctPath(q) && Distinct(x) && child.parent == n && Rep(c, child.left, child)
    requires far ==> n != m && n != child && m != child && n !in PathNodes(q) && m !in PathNodes(q) && child !in PathNodes(q)
    requires far ==> m !in Nodes(x) && child !in Nodes(x) && m !in Nodes(c) && child !in Nodes(c)
    requires far ==> PathNodes(q) !! Nodes(x) && PathNodes(q) !! Nodes(c) && Nodes(c) !! Nodes(x)
    modifies if far then {rp} + Nodes(x) else {}
    ensures far ==> RepPath(q, m.left, child.right, child) && Rep(x, m.left, rp) && Rep(c, child.left, child)
    ensures far ==> child.data == old(child.data) && (child.parent == n || child.parent == m)
  {
    if rp.right == m {
      NodesExist(c); PathNodesExist(q);
      rp.right := m.left;
      Adopt(m.left, rp, x, m);
      assert Rep(c, child.left, child);
    }
    if rp.parent == n {
      rp.parent := m;
    }
  }

  /** The second part: `m` takes over the links of `n` to its parent and children. */
  method TakeLeft(n: SNode, m: SNode, ghost far: bool, ghost child: SNode, ghost q: SPath, ghost hole: Node?<int>,
                   ghost x: STree, ghost c: STree)
    requires hole == m.left && n != m && m !in Nodes(x)
    requires !far ==> n.left == m && Rep(x, hole, m)
    requires far ==> n.left == child && child != m && child != n && RepPath(q, hole, child.right, child) && Rep(c, child.left, child)
    requires far ==> n !in PathNodes(q) && m !in PathNodes(q) && child !in PathNodes(q)
    requires far ==> m !in Nodes(c) && child !in Nodes(c) && child !in Nodes(x) && Rep(x, hole, Under(q, child))
    modifies m, if far then {child} else {}
    ensures m.parent == n.parent && m.right == n.right && m.data == old(m.data)
    ensures !far ==> m.left == hole && Rep(x, hole, m)
    ensures far ==> Rep(x, hole, Under(q, child))
    ensures far ==> m.left == child && RepPath(Append(q, R(c, child, old(child.data), Top)), hole, child, m)
  {
    m.parent := n.parent;
    m.right := n.right;
    if n.left != m {
      m.left := n.left;
      n.left.parent := m;
    }
    if far {
      AppendLinked(q, R(c, child, old(child.data), Top), hole, child.right, child, m);
    }
  }

  /** The greatest node of the left subtree `t` is either `t.n` or reached from it by going right. */
  lemma {:induction false} MostPosition(t: STree, m: SNode, n: SNode)
    requires t.Bin? && Rep(t, n.left, n)
    requires RepPath(RightSpine(Top, t), m, n.left, n) && Rep(Max(t), m, Under(RightSpine(Top, t), n))
    ensures t.r.Leaf? ==> n.left == m && m.parent == n && Rep(Max(t).l, m.left, m)
    ensures t.r.Bin? ==> t.n.parent == n && Rep(t.l, t.n.left, t.n)
    ensures t.r.Bin? ==> var q := RightSpine(Top, t.r);
      RepPath(q, m, t.n.right, t.n) && m.parent == Under(q, t.n) && Rep(Max(t).l, m.left, m)
  {
    if t.r.Bin? {
      RightSpineOfRight(t);
      AppendSplitsRight(RightSpine(Top, t.r), R(t.l, t.n, t.d, Top), m, n.left, n);
    }
  }

  /** The converse of joining paths. */
  lemma {:induction false} AppendSplitsRight(q: SPath, base: SPath, hole: Node?<int>, top: Node?<int>, above: Node?<int>)
    requires base.R? && base.up.Top? && RepPath(Append(q, base), hole, top, above)
    ensures RepPath(q, hole, base.n.right, base.n) && RepPath(base, base.n.right, top, above)
    ensures Under(Append(q, base), above) == Under(q, base.n)
  {
    match q
    case Top =>
    case R(_, n, _, up) => AppendSplitsRight(up, base, n, top, above);
    case L(up, n, _, _) => AppendSplitsRight(up, base, n, top, above);
  }

  /** The two trees and paths that `st_replace_left` works on share nothing. */
  lemma {:induction false} ReplaceLeftApart(p: SPath, r: STree, n: SNode, d: int, t: STree)
    requires t.Bin? && Separate(p, Bin(t, n, d, r))
    ensures Parts(p, r, n, RightSpine(Top, t), Max(t).n, Max(t).l)
    ensures Distinct(t) && n !in Nodes(t) && Nodes(r) !! Nodes(t) && PathNodes(p) !! Nodes(t)
    ensures {Max(t).n} + Nodes(Max(t).l) <= Nodes(t)
  {
    RightSpineParts(p, t, n, d, r);
  }

  /** Where `m` hangs and what it shares, gathered for `LiftMost`. */
  lemma {:induction false} LiftMostFacts(n: SNode, m: SNode, t: STree)
    requires t.Bin? && m == Max(t).n && Rep(t, n.left, n) && Distinct(t) && n !in Nodes(t)
    requires RepPath(RightSpine(Top, t), m, n.left, n) && Rep(Max(t), m, Under(RightSpine(Top, t), n))
    ensures Rep(Max(t).l, m.left, m) && m !in Nodes(Max(t).l) && m in Nodes(t) && Nodes(Max(t).l) <= Nodes(t)
    ensures t.r.Leaf? ==> n.left == m && m.parent == n && RightSpine(Top, t).Top?
    ensures t.r.Bin? ==> var q, x, child := RightSpine(Top, t.r), Max(t).l, t.n;
      && m.parent == Under(q, child) && RepPath(q, m, child.right, child) && (q.Top? || q.R?)
      && DistinctPath(q) && Distinct(x) && child.parent == n && Rep(t.l, child.left, child)
      && m != child && n !in PathNodes(q) && m !in PathNodes(q) && child !in PathNodes(q)
      && child !in Nodes(x) && m !in Nodes(t.l) && child !in Nodes(t.l)
      && PathNodes(q) !! Nodes(x) && PathNodes(q) !! Nodes(t.l) && Nodes(t.l) !! Nodes(x)
      && n.left == child && PathNodes(q) <= Nodes(t) && Under(q, child) in Nodes(t)
      && RightSpine(Top, t) == Append(q, R(t.l, child, t.d, Top))
  {
    MostPosition(t, m, n);
    if t.r.Bin? {
      RightDetachParts(t);
      RightSpineOfRight(t);
      assert Distinct(Max(t.r));
    }
  }

  /** `st_replace_left` but for the link from above and the right child. */
  method LiftMost(n: SNode, m: SNode, ghost t: STree) returns (ghost hole: Node?<int>)
    requires t.Bin? && m == Max(t).n && Rep(t, n.left, n) && Distinct(t) && n !in Nodes(t) && n != m
    requires RepPath(RightSpine(Top, t), m, n.left, n) && Rep(Max(t), m, Under(RightSpine(Top, t), n))
    requires n.right != m && n.parent != n
    modifies Nodes(t)
    ensures RepPath(RightSpine(Top, t), hole, m.left, m) && Rep(Max(t).l, hole, Under(RightSpine(Top, t), m))
    ensures m.parent == n.parent && m.right == n.right && m.data == Max(t).d
  {
    LiftMostFacts(n, m, t);
    NodesExist(t);
    ghost var far, x := t.r.Bin?, Max(t).l;
    ghost var q := if far then RightSpine(Top, t.r) else Top;
    var rp := m.parent;
    hole := m.left;
    UnhookMost(n, m, rp, far, t.n, q, x, t.l);
    TakeLeft(n, m, far, t.n, q, hole, x, t.l);
  }

  /** `st_replace_left`: the greatest node `m` of the left subtree takes the place of `n`. */
  method ReplaceLeft(n: SNode, m: SNode, root: SRoot, ghost p: SPath, ghost r: STree, ghost d: int, ghost t: STree)
    requires t.Bin? && m == Max(t).n && Separate(p, Bin(t, n, d, r))
    requires Rep(t, n.left, n) && Rep(r, n.right, n) && n.parent == Under(p, null)
    requires RepPath(RightSpine(Top, t), m, n.left, n) && Rep(Max(t), m, Under(RightSpine(Top, t), n))
    requires if p.Top? then root.node == m else RepPath(p, n, root.node, null)
    modifies Nodes(r), Nodes(t), PathNodes(p)
    ensures Linked(root, L(p, m, Max(t).d, r), Plug(RightSpine(Top, t), Max(t).l))
    ensures m.left == At(Plug(RightSpine(Top, t), Max(t).l))
  {
    ReplaceLeftApart(p, r, n, d, t);
    NodesExist(r); NodesExist(t); PathNodesExist(p);
    var parent := n.parent;
    ghost var hole := LiftMost(n, m, t);
    HandOver(n, m, n.right, parent, root, p, r, RightSpine(Top, t), hole, m.left, Max(t).l);
    AppendLinked(RightSpine(Top, t), L(p, m, Max(t).d, r), hole, m.left, root.node, null);
    LinkedAppend(root, RightSpine(Top, t), L(p, m, Max(t).d, r), Max(t).l);
  }

  // ----- `__st_remove`

  /** The end of `__st_remove` for a node without children: its slot is emptied. */
  method DropLeaf(del: SNode, root: SRoot, ghost p: SPath, ghost h: int)
    requires !p.Top? && Linked(root, p, Bin(Leaf, del, h, Leaf)) && Separate(p, Bin(Leaf, del, h, Leaf))
    modifies PathNodes(p)
    ensures Linked(root, p.up, Fill(p, Leaf))
  {
    var parent := del.parent;
    if parent.left == del {
      parent.left := null;
    } else {
      parent.right := null;
    }
    LinkedFill(root, p, Leaf);
  }

  /** The nodes left after removal, and where the update starts, form a search tree without negative hints. */
  lemma {:induction false} CutHolds(p: SPath, l: STree, n: SNode, h: int, r: STree)
    requires Search(Plug(p, Bin(l, n, h, r))) && Hints(Plug(p, Bin(l, n, h, r)))
    ensures var s := Cut(p, l, r);
      && Search(Plug(s.p, s.t)) && Hints(Plug(s.p, s.t))
      && Nodes(Plug(s.p, s.t)) <= Nodes(Plug(p, Bin(l, n, h, r)))
      && NodeSet(Removed(p, l, r)) <= NodeSet(Plug(p, Bin(l, n, h, r)))
      && Search(Removed(p, l, r)) && Hints(Removed(p, l, r))
      && Keys(Removed(p, l, r)) == Keys(Plug(p, Bin(l, n, h, r))) - {n.value}
  {
    var s := Cut(p, l, r);
    InorderAround(p, Bin(l, n, h, r));
    OneRemoved(Before(p) + Inorder(l), n, Inorder(r) + After(p));
    CutInorder(p, l, r);
    CutHints(p, l, n, h, r);
    RemovedKeeps(p, l, n, h, r);
    SameNodes(s.p, s.t);
    SameNodes(p, Bin(l, n, h, r));
  }

  /** The part of `__st_remove` before the update: `start` is the node it is called on. */
  method CutOut(del: SNode, root: SRoot, ghost p: SPath, ghost l: STree, ghost h: int, ghost r: STree)
    returns (start: Node?<int>)
    requires Linked(root, p, Bin(l, del, h, r)) && Separate(p, Bin(l, del, h, r))
    modifies root, Nodes(l), Nodes(r), PathNodes(p)
    ensures var s := Cut(p, l, r); Linked(root, s.p, s.t) && start == At(s.t)
  {
    ghost var s := Cut(p, l, r);
    assert Rep(l, del.left, del) && Rep(r, del.right, del);
    if !p.Top? { RootIsTop(p, del, root.node); }
    NodesExist(l); NodesExist(r); PathNodesExist(p);
    if del.right != null {
      PathNodesExist(Spine(Top, r)); NodesExist(Min(r));
      var least := First(del.right, del, r);
      if del == root.node {
        root.node := least;
      }
      ReplaceRight(del, least, root, p, l, h, r);
      start := least.right;
    } else if del.left != null {
      PathNodesExist(RightSpine(Top, l)); NodesExist(Max(l));
      var most := Last(del.left, del, l);
      if del == root.node {
        root.node := most;
      }
      ReplaceLeft(del, most, root, p, r, h, l);
      start := most.left;
    } else if del == root.node {
      root.node := null;
      start := null;
    } else {
      start := del.parent;
      DropLeaf(del, root, p, h);
    }
  }

  /** `__st_remove` */
  method RemoveNode(del: SNode, root: SRoot, ghost p: SPath, ghost l: STree, ghost h: int, ghost r: STree)
    requires Linked(root, p, Bin(l, del, h, r))
    requires Search(Plug(p, Bin(l, del, h, r))) && Hints(Plug(p, Bin(l, del, h, r)))
    modifies root, Nodes(Plug(p, Bin(l, del, h, r)))
    ensures Linked(root, Top, Removed(p, l, r))
  {
    SearchSeparate(p, Bin(l, del, h, r));
    SameNodes(p, Bin(l, del, h, r));
    CutHolds(p, l, del, h, r);
    ghost var s := Cut(p, l, r);
    var start := CutOut(del, root, p, l, h, r);
    UpdateFrom(root, start, s.p, s.t);
  }
}
