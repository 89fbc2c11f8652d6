/** Rotation and `st_update` on the pointers. */
module StUpdate {
  import opened LinkedTree
  import opened TreeOrder
  import opened StSpec

  type SRoot = Root<int>

  /** `if (p && left(p) == old) left(p) = new; else if (p) right(p) = new`. The root is the caller's business. */
  method ChangeSlot(old_: SNode, new_: SNode, parent: Node?<int>, root: SRoot, ghost p: SPath)
    requires DistinctPath(p) && old_ !in PathNodes(p) && parent == Under(p, null)
    requires if p.Top? then root.node == new_ else RepPath(p, old_, root.node, null)
    modifies PathNodes(p)
    ensures RepPath(p, new_, root.node, null)
  {
    if parent != null && parent.left == old_ {
      parent.left := new_;
    } else if parent != null {
      parent.right := new_;
    }
  }

  /** `st_rotate_right`, which raises the right child of `n`. */
  method RotateRight(n: SNode, root: SRoot, ghost p: SPath, ghost l: STree, ghost r: STree)
    requires r.Bin? && Apart(p, n, r.n, l, r.l, r.r) && Distinct(r)
    requires Rep(l, n.left, n) && Rep(r, n.right, n) && n.parent == Under(p, null)
    requires if p.Top? then root.node == r.n else RepPath(p, n, root.node, null)
    modifies n, r.n, Nodes(r.l), PathNodes(p)
    ensures n.data == old(n.data)
    ensures Linked(root, p, Bin(Bin(l, n, n.data, r.l), r.n, r.d, r.r))
  {
    NodesExist(l); NodesExist(r.l); NodesExist(r.r); PathNodesExist(p);
    var c, parent := n.right, n.parent;
    c.parent := n.parent;
    n.right := c.left;
    n.parent := c;
    c.left := n;
    ChangeSlot(n, c, parent, root, p);
    Adopt(n.right, n, r.l, c);
    assert Rep(Bin(l, n, n.data, r.l), n, c);
  }

  /** `st_rotate_left`, which raises the left child of `n`. */
  method RotateLeft(n: SNode, root: SRoot, ghost p: SPath, ghost l: STree, ghost r: STree)
    requires l.Bin? && Apart(p, n, l.n, r, l.l, l.r) && Distinct(l)
    requires Rep(l, n.left, n) && Rep(r, n.right, n) && n.parent == Under(p, null)
    requires if p.Top? then root.node == l.n else RepPath(p, n, root.node, null)
    modifies n, l.n, Nodes(l.r), PathNodes(p)
    ensures n.data == old(n.data)
    ensures Linked(root, p, Bin(l.l, l.n, l.d, Bin(l.r, n, n.data, r)))
  {
    NodesExist(r); NodesExist(l.l); NodesExist(l.r); PathNodesExist(p);
    var c, parent := n.left, n.parent;
    c.parent := n.parent;
    n.left := c.right;
    n.parent := c;
    c.right := n;
    ChangeSlot(n, c, parent, root, p);
    Adopt(n.left, n, l.r, c);
    assert Rep(Bin(l.r, n, n.data, r), n, c);
  }

  /** `st_balance` */
  function HintChain(n: Node?<int>): int
    reads n
  {
    if n == null then 0 else n.data + 1
  }

  lemma {:induction false} RepChain(t: STree, at: Node?<int>, parent: Node?<int>)
    requires Rep(t, at, parent)
    ensures HintChain(at) == Chain(t)
  {
  }

  /** `n == *root` holds exactly at the top. */
  lemma {:induction false} RootIsTop(p: SPath, hole: Node?<int>, top: Node?<int>)
    requires RepPath(p, hole, top, null) && !p.Top?
    ensures top != null && top in PathNodes(p)
  {
    if !p.up.Top? {
      RootIsTop(p.up, p.n, top);
    }
  }

  /** `n->hint = st_max_hint(n)`; `changed` is the condition on which `st_update` goes on. */
  method SetHint(n: SNode, previous: int, root: SRoot, ghost p: SPath, ghost t: STree) returns (changed: bool)
    requires t.Bin? && t.n == n && n !in Nodes(t.l) && n !in Nodes(t.r) && n !in PathNodes(p)
    requires Linked(root, p, t)
    modifies n`data
    ensures Linked(root, p, t.(d := MaxHint(t.l, t.r)))
    ensures changed <==> MaxHint(t.l, t.r) == 0 || MaxHint(t.l, t.r) != previous
  {
    RepChain(t.l, n.left, n);
    RepChain(t.r, n.right, n);
    var l, r := HintChain(n.left), HintChain(n.right);
    n.data := if l > r then l else r;
    changed := n.data == 0 || n.data != previous;
  }

  /** `st_update` on the right-leaning node `n`. */
  method RaiseRight(n: SNode, root: SRoot, ghost p: SPath, ghost t: STree) returns (changed: bool)
    requires t.Bin? && t.n == n && t.r.Bin? && Linked(root, p, t) && Separate(p, t)
    modifies root, Nodes(t), PathNodes(p)
    ensures var h := MaxHint(t.l, t.r.l);
      && Linked(root, p, Bin(Bin(t.l, n, h, t.r.l), t.r.n, t.r.d, t.r.r))
      && (changed <==> h == 0 || h != t.d)
  {
    ApartFromRight(p, t.l, n, t.d, t.r.l, t.r.n, t.r.d, t.r.r);
    if !p.Top? { RootIsTop(p, n, root.node); }
    var previous := n.data;
    if n == root.node {
      root.node := n.right;
    }
    RotateRight(n, root, p, t.l, t.r);
    ghost var q, s := L(p, t.r.n, t.r.d, t.r.r), Bin(t.l, n, t.d, t.r.l);
    LinkedFill(root, q, s);
    changed := SetHint(n, previous, root, q, s);
    LinkedFill(root, q, s.(d := MaxHint(s.l, s.r)));
  }

  /** `st_update` on the left-leaning node `n`. */
  method RaiseLeft(n: SNode, root: SRoot, ghost p: SPath, ghost t: STree) returns (changed: bool)
    requires t.Bin? && t.n == n && t.l.Bin? && Linked(root, p, t) && Separate(p, t)
    modifies root, Nodes(t), PathNodes(p)
    ensures var h := MaxHint(t.l.r, t.r);
      && Linked(root, p, Bin(t.l.l, t.l.n, t.l.d, Bin(t.l.r, n, h, t.r)))
      && (changed <==> h == 0 || h != t.d)
  {
    ApartFromLeft(p, t.l.l, t.l.n, t.l.d, t.l.r, n, t.d, t.r);
    if !p.Top? { RootIsTop(p, n, root.node); }
    var previous := n.data;
    if n == root.node {
      root.node := n.left;
    }
    RotateLeft(n, root, p, t.l, t.r);
    ghost var q, s := R(t.l.l, t.l.n, t.l.d, p), Bin(t.l.r, n, t.d, t.r);
    LinkedFill(root, q, s);
    changed := SetHint(n, previous, root, q, s);
    LinkedFill(root, q, s.(d := MaxHint(s.l, s.r)));
  }

  /** One call of `st_update` without the recursive one. Hints that are not negative make both rotations possible. */
  method Rebalance(n: SNode, root: SRoot, ghost p: SPath, ghost t: STree) returns (changed: bool)
    requires t.Bin? && t.n == n && Hints(t) && Linked(root, p, t) && Separate(p, t)
    modifies root, Nodes(t), PathNodes(p)
    ensures Linked(root, p, Balanced(t).0)
    ensures changed <==> Balanced(t).1 == 0 || Balanced(t).1 != t.d
  {
    RepChain(t.l, n.left, n);
    RepChain(t.r, n.right, n);
    var b := HintChain(n.left) - HintChain(n.right);
    if b < -1 {
      changed := RaiseRight(n, root, p, t);
    } else if b > 1 {
      changed := RaiseLeft(n, root, p, t);
    } else {
      changed := SetHint(n, n.data, root, p, t);
    }
  }

  /** The nodes and the order do not change while `st_update` climbs. */
  lemma {:induction false} UpdateNodes(p: SPath, t: STree)
    requires Search(Plug(p, t)) && Hints(Plug(p, t))
    ensures Separate(p, t) && Hints(t) && PathNodes(p) + Nodes(t) == Nodes(Plug(p, t))
    ensures t.Bin? ==> var t' := Balanced(t).0;
      && Search(Plug(p, t')) && Hints(Plug(p, t')) && Nodes(Plug(p, t')) == Nodes(Plug(p, t))
  {
    SearchSeparate(p, t);
    PlugHints(p, t);
    SameNodes(p, t);
    if t.Bin? {
      var t' := Balanced(t).0;
      BalancedKeeps(t);
      SameInorder(p, t, t');
      PlugHints(p, t');
      SameNodes(p, t');
    }
  }

  /** `st_update`: climbs from `n`, and ends because every call starts from a shorter path. */
  method UpdateFrom(root: SRoot, n: Node?<int>, ghost p: SPath, ghost t: STree)
    requires n == At(t) && Linked(root, p, t)
    requires Search(Plug(p, t)) && Hints(Plug(p, t))
    modifies root, Nodes(Plug(p, t))
    ensures Linked(root, Top, Update(p, t))
    decreases p
  {
    UpdateNodes(p, t);
    if n == null {
      LinkedUp(root, p, t);
      return;
    }
    var parent := n.parent;
    var changed := Rebalance(n, root, p, t);
    ghost var t' := Balanced(t).0;
    if changed && parent != null {
      LinkedFill(root, p, t');
      UpdateFrom(root, parent, p.up, Fill(p, t'));
    } else {
      LinkedUp(root, p, t');
    }
  }
}
