/** `rb_insert_color` on the pointers. */
module RbInsert {
  import opened LinkedTree
  import opened TreeOrder
  import opened RedBlack
  import opened RbSteps

  /** The child that changes hands in case 3, parent on the left. */
  method TurnRight(parent: RNode, gparent: RNode, tmp: Node?<Color>,
                   ghost t: RTree, ghost s: RTree, ghost u: RTree, ghost under: Node?<Color>)
    requires parent != gparent && {parent, gparent} !! Nodes(t) + Nodes(s) + Nodes(u)
    requires Distinct(s) && Nodes(s) !! Nodes(t) + Nodes(u)
    requires Rep(t, parent.left, parent) && Rep(s, tmp, under) && Rep(u, gparent.right, gparent)
    modifies gparent`left, parent`right, Nodes(s)
    ensures parent.right == gparent && Rep(t, parent.left, parent) && Rep(u, gparent.right, gparent)
    ensures Rep(Paint(s, Black), gparent.left, gparent)
  {
    NodesExist(t); NodesExist(u);
    gparent.left := tmp;
    parent.right := gparent;
    AdoptBlack(tmp, gparent, s, under);
  }

  /** Case 3, parent on the left: right rotation at `gparent`; `tmp` is what hung right of `parent`. */
  method Case3Left(parent: RNode, gparent: RNode, tmp: Node?<Color>, root: RRoot,
                   ghost p: RPath, ghost t: RTree, ghost s: RTree, ghost u: RTree, ghost under: Node?<Color>)
    requires Apart(p, parent, gparent, t, s, u)
    requires Rep(t, parent.left, parent) && Rep(s, tmp, under) && Rep(u, gparent.right, gparent)
    requires gparent.parent == Under(p, null) && RepPath(p, gparent, root.node, null)
    modifies root, {parent, gparent}, Nodes(s), PathNodes(p)
    ensures Linked(root, p, Bin(t, parent, old(gparent.data), Bin(Paint(s, Black), gparent, Red, u)))
  {
    PaintNodes(s, Black);
    PathNodesExist(p);
    TurnRight(parent, gparent, tmp, t, s, u, under);
    RotateSetParents(gparent, parent, root, Red, p, Paint(s, Black), u, t);
  }

  /** Case 2, parent on the left: left rotation at `parent`; the links above are left to case 3. */
  method Case2Left(node: RNode, parent: RNode, ghost t: RTree, ghost s: RTree)
    requires t.Bin? && t.n == node && Distinct(Bin(s, parent, Red, t))
    requires Rep(s, parent.left, parent) && Rep(t, node, parent)
    modifies {node, parent}, Nodes(t.l)
    ensures Rep(Bin(s, parent, Red, Paint(t.l, Black)), node.left, node)
    ensures Rep(t.r, node.right, node)
  {
    PaintNodes(t.l, Black);
    NodesExist(s); NodesExist(t.r);
    var tmp := node.left;
    parent.right := tmp;
    node.left := parent;
    AdoptBlack(tmp, parent, t.l, node);
    parent.parent, parent.data := node, Red;
  }

  lemma {:induction false} Case2ApartLeft(p: RPath, t: RTree, s: RTree, parent: RNode, gparent: RNode, u: RTree)
    requires t.Bin? && Apart(p, parent, gparent, s, t, u)
    ensures Apart(p, t.n, gparent, Bin(s, parent, Red, Paint(t.l, Black)), t.r, u)
    ensures Distinct(Bin(s, parent, Red, t))
  {
    PaintNodes(t.l, Black);
  }

  /** Cases 2 and 3, parent on the left. */
  method RotateLeft(node: RNode, parent: RNode, gparent: RNode, root: RRoot,
                    ghost p: RPath, ghost t: RTree, ghost s: RTree, ghost u: RTree)
    requires t.Bin? && t.n == node && Apart(p, parent, gparent, t, s, u)
    requires parent.right == node ==> Rep(s, parent.left, parent) && Rep(t, node, parent)
    requires parent.right != node ==> Rep(t, parent.left, parent) && Rep(s, parent.right, parent)
    requires Rep(u, gparent.right, gparent)
    requires gparent.parent == Under(p, null) && RepPath(p, gparent, root.node, null)
    modifies root, Nodes(t), Nodes(s), {parent, gparent}, PathNodes(p)
    ensures old(parent.right) == node ==>
      Linked(root, p, Bin(Bin(s, parent, Red, Paint(t.l, Black)), node, old(gparent.data), Bin(Paint(t.r, Black), gparent, Red, u)))
    ensures old(parent.right) != node ==>
      Linked(root, p, Bin(t, parent, old(gparent.data), Bin(Paint(s, Black), gparent, Red, u)))
  {
    var tmp := parent.right;
    if node == tmp {
      Case2ApartLeft(p, t, s, parent, gparent, u);
      NodesExist(u); PathNodesExist(p);
      Case2Left(node, parent, t, s);
      tmp := node.right;
      Case3Left(node, gparent, tmp, root, p, Bin(s, parent, Red, Paint(t.l, Black)), t.r, u, node);
    } else {
      Case3Left(parent, gparent, tmp, root, p, t, s, u, parent);
    }
  }

  /** The parent turns black and the grandparent red; the uncle `x`, at `tmp`, has turned black. */
  method Recolour(parent: RNode, gparent: RNode, root: RRoot,
                  ghost up: RPath, ghost a: RTree, ghost b: RTree, ghost x: RTree, ghost tmp: Node?<Color>)
    requires Apart(up, parent, gparent, a, b, x)
    requires Rep(a, parent.left, parent) && Rep(b, parent.right, parent) && Rep(x, tmp, gparent)
    requires RepPath(up, gparent, root.node, null)
    modifies parent`parent, parent`data, gparent`data
    ensures Rep(Bin(a, parent, Black, b), parent, gparent) && Rep(x, tmp, gparent) && gparent.data == Red
    ensures RepPath(up, gparent, root.node, null)
  {
    NodesExist(a); NodesExist(b); NodesExist(x); PathNodesExist(up);
    parent.parent, parent.data := gparent, Black;
    gparent.data := Red;
  }

  /** Case 1, parent on the left: parent and uncle turn black, the grandparent red. */
  method FlipLeft(parent: RNode, gparent: RNode, tmp: RNode, root: RRoot,
                  ghost up: RPath, ghost a: RTree, ghost b: RTree, ghost u: RTree, ghost gc: Color)
    requires Apart(up, parent, gparent, a, b, u) && tmp == gparent.right
    requires Linked(root, up, Bin(Bin(a, parent, Red, b), gparent, gc, u))
    modifies {parent, gparent}, Nodes(u)
    ensures Linked(root, up, Bin(Bin(a, parent, Black, b), gparent, Red, Paint(u, Black)))
  {
    NodesExist(a); NodesExist(b); PathNodesExist(up);
    assert Rep(Bin(a, parent, Red, b), gparent.left, gparent);
    AdoptBlack(tmp, gparent, u, gparent);
    Recolour(parent, gparent, root, up, a, b, Paint(u, Black), gparent.right);
  }

  /** The half of the loop body for `parent == gparent->rb_left`: flip colours and go on at `gparent`, or rotate and stop. */
  method FixLeft(node: RNode, parent: RNode, gparent: RNode, root: RRoot,
                 ghost up: RPath, ghost t: RTree, ghost s: RTree, ghost u: RTree, ghost gc: Color, ghost inner: bool)
    returns (flipped: bool)
    requires t.Bin? && t.n == node && Apart(up, parent, gparent, t, s, u)
    requires inner ==> Linked(root, up, Bin(Bin(s, parent, Red, t), gparent, gc, u))
    requires !inner ==> Linked(root, up, Bin(Bin(t, parent, Red, s), gparent, gc, u))
    modifies root, {parent, gparent}, Nodes(t), Nodes(s), Nodes(u), PathNodes(up)
    ensures flipped == IsRed(u)
    ensures flipped && inner ==> Linked(root, up, Bin(Bin(s, parent, Black, t), gparent, Red, Paint(u, Black)))
    ensures flipped && !inner ==> Linked(root, up, Bin(Bin(t, parent, Black, s), gparent, Red, Paint(u, Black)))
    ensures !flipped && inner ==> Linked(root, up,
      Bin(Bin(s, parent, Red, Paint(t.l, Black)), node, gc, Bin(Paint(t.r, Black), gparent, Red, u)))
    ensures !flipped && !inner ==> Linked(root, up, Bin(t, parent, gc, Bin(Paint(s, Black), gparent, Red, u)))
  {
    assert inner ==> Rep(Bin(s, parent, Red, t), gparent.left, gparent);
    assert !inner ==> Rep(Bin(t, parent, Red, s), gparent.left, gparent);
    assert inner ==> Rep(t, parent.right, parent);
    assert !inner ==> Rep(s, parent.right, parent) && parent.right != node;
    var tmp := gparent.right;
    assert Rep(u, tmp, gparent);
    if tmp != null && tmp.data == Red {
      FlipLeft(parent, gparent, tmp, root, up, if inner then s else t, if inner then t else s, u, gc);
      flipped := true;
    } else {
      RotateLeft(node, parent, gparent, root, up, t, s, u);
      flipped := false;
    }
  }

  // ----- the mirror images

  /** The child that changes hands in case 3, parent on the right. */
  method TurnLeft(parent: RNode, gparent: RNode, tmp: Node?<Color>,
                  ghost t: RTree, ghost s: RTree, ghost u: RTree, ghost under: Node?<Color>)
    requires parent != gparent && {parent, gparent} !! Nodes(t) + Nodes(s) + Nodes(u)
    requires Distinct(s) && Nodes(s) !! Nodes(t) + Nodes(u)
    requires Rep(t, parent.right, parent) && Rep(s, tmp, under) && Rep(u, gparent.left, gparent)
    modifies gparent`right, parent`left, Nodes(s)
    ensures parent.left == gparent && Rep(t, parent.right, parent) && Rep(u, gparent.left, gparent)
    ensures Rep(Paint(s, Black), gparent.right, gparent)
  {
    NodesExist(t); NodesExist(u);
    gparent.right := tmp;
    parent.left := gparent;
    AdoptBlack(tmp, gparent, s, under);
  }

  /** Case 3, parent on the right: left rotation at `gparent`; `tmp` is what hung left of `parent`. */
  method Case3Right(parent: RNode, gparent: RNode, tmp: Node?<Color>, root: RRoot,
                   ghost p: RPath, ghost t: RTree, ghost s: RTree, ghost u: RTree, ghost under: Node?<Color>)
    requires Apart(p, parent, gparent, t, s, u)
    requires Rep(t, parent.right, parent) && Rep(s, tmp, under) && Rep(u, gparent.left, gparent)
    requires gparent.parent == Under(p, null) && RepPath(p, gparent, root.node, null)
    modifies root, {parent, gparent}, Nodes(s), PathNodes(p)
    ensures Linked(root, p, Bin(Bin(u, gparent, Red, Paint(s, Black)), parent, old(gparent.data), t))
  {
    PaintNodes(s, Black);
    PathNodesExist(p);
    TurnLeft(parent, gparent, tmp, t, s, u, under);
    RotateSetParents(gparent, parent, root, Red, p, u, Paint(s, Black), t);
  }

  /** Case 2, parent on the right: right rotation at `parent`; the links above are left to case 3. */
  method Case2Right(node: RNode, parent: RNode, ghost t: RTree, ghost s: RTree)
    requires t.Bin? && t.n == node && Distinct(Bin(t, parent, Red, s))
    requires Rep(s, parent.right, parent) && Rep(t, node, parent)
    modifies {node, parent}, Nodes(t.r)
    ensures Rep(Bin(Paint(t.r, Black), parent, Red, s), node.right, node)
    ensures Rep(t.l, node.left, node)
  {
    PaintNodes(t.r, Black);
    NodesExist(s); NodesExist(t.l);
    var tmp := node.right;
    parent.left := tmp;
    node.right := parent;
    AdoptBlack(tmp, parent, t.r, node);
    parent.parent, parent.data := node, Red;
  }

  lemma {:induction false} Case2ApartRight(p: RPath, t: RTree, s: RTree, parent: RNode, gparent: RNode, u: RTree)
    requires t.Bin? && Apart(p, parent, gparent, s, t, u)
    ensures Apart(p, t.n, gparent, Bin(Paint(t.r, Black), parent, Red, s), t.l, u)
    ensures Distinct(Bin(t, parent, Red, s))
  {
    PaintNodes(t.r, Black);
  }

  /** Cases 2 and 3, parent on the right. */
  method RotateRight(node: RNode, parent: RNode, gparent: RNode, root: RRoot,
                    ghost p: RPath, ghost t: RTree, ghost s: RTree, ghost u: RTree)
    requires t.Bin? && t.n == node && Apart(p, parent, gparent, t, s, u)
    requires parent.left == node ==> Rep(s, parent.right, parent) && Rep(t, node, parent)
    requires parent.left != node ==> Rep(t, parent.right, parent) && Rep(s, parent.left, parent)
    requires Rep(u, gparent.left, gparent)
    requires gparent.parent == Under(p, null) && RepPath(p, gparent, root.node, null)
    modifies root, Nodes(t), Nodes(s), {parent, gparent}, PathNodes(p)
    ensures old(parent.left) == node ==>
      Linked(root, p, Bin(Bin(u, gparent, Red, Paint(t.l, Black)), node, old(gparent.data), Bin(Paint(t.r, Black), parent, Red, s)))
    ensures old(parent.left) != node ==>
      Linked(root, p, Bin(Bin(u, gparent, Red, Paint(s, Black)), parent, old(gparent.data), t))
  {
    var tmp := parent.left;
    if node == tmp {
      Case2ApartRight(p, t, s, parent, gparent, u);
      NodesExist(u); PathNodesExist(p);
      Case2Right(node, parent, t, s);
      tmp := node.left;
      Case3Right(node, gparent, tmp, root, p, Bin(Paint(t.r, Black), parent, Red, s), t.l, u, node);
    } else {
      Case3Right(parent, gparent, tmp, root, p, t, s, u, parent);
    }
  }

  /** Case 1, parent on the right. */
  method FlipRight(parent: RNode, gparent: RNode, tmp: RNode, root: RRoot,
                   ghost up: RPath, ghost a: RTree, ghost b: RTree, ghost u: RTree, ghost gc: Color)
    requires Apart(up, parent, gparent, a, b, u) && tmp == gparent.left
    requires Linked(root, up, Bin(u, gparent, gc, Bin(a, parent, Red, b)))
    modifies {parent, gparent}, Nodes(u)
    ensures Linked(root, up, Bin(Paint(u, Black), gparent, Red, Bin(a, parent, Black, b)))
  {
    NodesExist(a); NodesExist(b); PathNodesExist(up);
    assert Rep(Bin(a, parent, Red, b), gparent.right, gparent);
    AdoptBlack(tmp, gparent, u, gparent);
    Recolour(parent, gparent, root, up, a, b, Paint(u, Black), gparent.left);
  }

  /** The half of the loop body for `parent == gparent->rb_right`: flip colours and go on at `gparent`, or rotate and stop. */
  method FixRight(node: RNode, parent: RNode, gparent: RNode, root: RRoot,
                 ghost up: RPath, ghost t: RTree, ghost s: RTree, ghost u: RTree, ghost gc: Color, ghost inner: bool)
    returns (flipped: bool)
    requires t.Bin? && t.n == node && Apart(up, parent, gparent, t, s, u)
    requires inner ==> Linked(root, up, Bin(u, gparent, gc, Bin(t, parent, Red, s)))
    requires !inner ==> Linked(root, up, Bin(u, gparent, gc, Bin(s, parent, Red, t)))
    modifies root, {parent, gparent}, Nodes(t), Nodes(s), Nodes(u), PathNodes(up)
    ensures flipped == IsRed(u)
    ensures flipped && inner ==> Linked(root, up, Bin(Paint(u, Black), gparent, Red, Bin(t, parent, Black, s)))
    ensures flipped && !inner ==> Linked(root, up, Bin(Paint(u, Black), gparent, Red, Bin(s, parent, Black, t)))
    ensures !flipped && inner ==> Linked(root, up,
      Bin(Bin(u, gparent, Red, Paint(t.l, Black)), node, gc, Bin(Paint(t.r, Black), parent, Red, s)))
    ensures !flipped && !inner ==> Linked(root, up, Bin(Bin(u, gparent, Red, Paint(s, Black)), parent, gc, t))
  {
    assert inner ==> Rep(Bin(t, parent, Red, s), gparent.right, gparent);
    assert !inner ==> Rep(Bin(s, parent, Red, t), gparent.right, gparent);
    assert inner ==> Rep(t, parent.left, parent);
    assert !inner ==> Rep(s, parent.left, parent) && parent.left != node;
    var tmp := gparent.left;
    assert Rep(u, tmp, gparent);
    if tmp != null && tmp.data == Red {
      FlipRight(parent, gparent, tmp, root, up, if inner then t else s, if inner then s else t, u, gc);
      flipped := true;
    } else {
      RotateRight(node, parent, gparent, root, up, t, s, u);
      flipped := false;
    }
  }

  // ----- the loop

  /** Whatever the position, `t` seen from `p` is separate and made of the nodes of the finished tree. */
  lemma {:induction false} FixNodes(p: RPath, t: RTree)
    requires t.Bin? && Search(InsertFix(p, t))
    ensures Search(Plug(p, t)) && Separate(p, t)
    ensures PathNodes(p) + Nodes(t) == NodeSet(InsertFix(p, t))
  {
    InsertFixInorder(p, t);
    SearchSeparate(p, t);
    SameNodes(p, t);
  }

  /** The pointer test `parent != gparent->rb_right` reads off the frame above `parent`. */
  lemma {:induction false} ParentSide(root: RRoot, p: RPath, t: RTree)
    requires t.Bin? && Linked(root, p, t) && Separate(p, t) && !p.Top? && !p.up.Top?
    ensures t.n.parent == p.n && p.n.parent == p.up.n
    ensures p.up.n.right == p.n <==> p.up.R?
    ensures Linked(root, p.up.up, Fill(p.up, Fill(p, t)))
    ensures Apart(p.up.up, p.n, p.up.n, t, if p.L? then p.r else p.l, if p.up.L? then p.up.r else p.up.l)
  {
    LinkedFill(root, p, t);
    LinkedFill(root, p.up, Fill(p, t));
    var up := p.up;
    if up.L? {
      assert Rep(up.r, up.n.right, up.n);
    }
    assert Distinct(Fill(p, t)) && Distinct(Fill(up, Fill(p, t)));
  }

  /** The loop body below a `gparent` of which `parent` is the left child. */
  method StepLeft(node: RNode, parent: RNode, gparent: RNode, root: RRoot, ghost p: RPath, ghost t: RTree)
    returns (flipped: bool, ghost t': RTree)
    requires t.Bin? && t.n == node && t.d == Red && Linked(root, p, t) && Separate(p, t)
    requires !p.Top? && p.n == parent && p.d == Red && p.up.L? && p.up.n == gparent
    modifies root, Nodes(t), PathNodes(p)
    ensures flipped ==> Linked(root, p.up.up, t') && t'.Bin? && t'.n == gparent && t'.d == Red
    ensures flipped ==> InsertFix(p.up.up, t') == InsertFix(p, t)
    ensures !flipped ==> Linked(root, Top, InsertFix(p, t))
  {
    ParentSide(root, p, t);
    ghost var up, s, u, gc := p.up.up, if p.L? then p.r else p.l, p.up.r, p.up.d;
    flipped := FixLeft(node, parent, gparent, root, up, t, s, u, gc, p.R?);
    if flipped {
      t' := Bin(if p.R? then Bin(s, parent, Black, t) else Bin(t, parent, Black, s), gparent, Red, Paint(u, Black));
    } else if p.R? {
      t' := Bin(Bin(s, parent, Red, Paint(t.l, Black)), node, gc, Bin(Paint(t.r, Black), gparent, Red, u));
      LinkedUp(root, up, t');
    } else {
      t' := Bin(t, parent, gc, Bin(Paint(s, Black), gparent, Red, u));
      LinkedUp(root, up, t');
    }
  }

  /** The loop body below a `gparent` of which `parent` is the right child. */
  method StepRight(node: RNode, parent: RNode, gparent: RNode, root: RRoot, ghost p: RPath, ghost t: RTree)
    returns (flipped: bool, ghost t': RTree)
    requires t.Bin? && t.n == node && t.d == Red && Linked(root, p, t) && Separate(p, t)
    requires !p.Top? && p.n == parent && p.d == Red && p.up.R? && p.up.n == gparent
    modifies root, Nodes(t), PathNodes(p)
    ensures flipped ==> Linked(root, p.up.up, t') && t'.Bin? && t'.n == gparent && t'.d == Red
    ensures flipped ==> InsertFix(p.up.up, t') == InsertFix(p, t)
    ensures !flipped ==> Linked(root, Top, InsertFix(p, t))
  {
    ParentSide(root, p, t);
    ghost var up, s, u, gc := p.up.up, if p.R? then p.l else p.r, p.up.l, p.up.d;
    flipped := FixRight(node, parent, gparent, root, up, t, s, u, gc, p.L?);
    if flipped {
      t' := Bin(Paint(u, Black), gparent, Red, if p.L? then Bin(t, parent, Black, s) else Bin(s, parent, Black, t));
    } else if p.L? {
      t' := Bin(Bin(u, gparent, Red, Paint(t.l, Black)), node, gc, Bin(Paint(t.r, Black), parent, Red, s));
      LinkedUp(root, up, t');
    } else {
      t' := Bin(Bin(u, gparent, Red, Paint(s, Black)), parent, gc, t);
      LinkedUp(root, up, t');
    }
  }

  /** A black parent ends the loop: nothing is left to repair. */
  lemma {:induction false} StopAtBlack(root: RRoot, p: RPath, t: RTree)
    requires t.Bin? && Linked(root, p, t) && !p.Top? && p.d == Black
    ensures Linked(root, Top, InsertFix(p, t))
  {
    LinkedUp(root, p, t);
  }

  /** A red parent is not the root, and the node above it is black. */
  lemma {:induction false} RedParent(p: RPath)
    requires PathNoRedRed(p, false) && !p.Top? && p.d == Red
    ensures !p.up.Top? && PathNoRedRed(p.up.up, false)
  {
  }

  /** The loop body for a red parent. */
  method Step(node: RNode, parent: RNode, root: RRoot, ghost p: RPath, ghost t: RTree)
    returns (flipped: bool, gparent: RNode, ghost t': RTree)
    requires t.Bin? && t.n == node && t.d == Red && Linked(root, p, t) && Separate(p, t)
    requires !p.Top? && p.n == parent && p.d == Red && !p.up.Top?
    modifies root, Nodes(t), PathNodes(p)
    ensures flipped ==> Linked(root, p.up.up, t') && t'.Bin? && t'.n == gparent && t'.d == Red
    ensures flipped ==> InsertFix(p.up.up, t') == InsertFix(p, t)
    ensures !flipped ==> Linked(root, Top, InsertFix(p, t))
  {
    ParentSide(root, p, t);
    gparent := parent.parent;
    if parent != gparent.right {
      flipped, t' := StepLeft(node, parent, gparent, root, p, t);
    } else {
      flipped, t' := StepRight(node, parent, gparent, root, p, t);
    }
  }

  /** `rb_insert_color`: restores the red-black rules after the red node `node0` was linked in. */
  method InsertColor(node0: RNode, root: RRoot, ghost p0: RPath, ghost t0: RTree)
    requires t0.Bin? && t0.n == node0 && t0.d == Red
    requires Linked(root, p0, t0) && Search(Plug(p0, t0)) && PathNoRedRed(p0, false)
    modifies root, Nodes(Plug(p0, t0))
    ensures Linked(root, Top, InsertFix(p0, t0))
  {
    InsertFixInorder(p0, t0);
    SameNodes(p0, t0);
    ghost var all, goal := Nodes(Plug(p0, t0)), InsertFix(p0, t0);
    var node, parent := node0, node0.parent;
    ghost var p, t := p0, t0;
    while true
      invariant t.Bin? && t.n == node && t.d == Red && parent == node.parent
      invariant Linked(root, p, t) && PathNoRedRed(p, false)
      invariant InsertFix(p, t) == goal
      decreases p
    {
      FixNodes(p, t);
      assert PathNodes(p) + Nodes(t) == all;
      if parent == null {
        AdoptBlack(node, null, t, null);
        return;
      }
      if parent.data == Black {
        StopAtBlack(root, p, t);
        return;
      }
      RedParent(p);
      var flipped, gparent;
      ghost var t';
      flipped, gparent, t' := Step(node, parent, root, p, t);
      if !flipped {
        return;
      }
      p, t := p.up.up, t';
      node := gparent;
      parent := node.parent;
    }
  }
}
