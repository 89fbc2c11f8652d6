/** `rb_erase` on the pointers. */
module RbErase {
  import opened LinkedTree
  import opened TreeOrder
  import opened RedBlack
  import opened RbSteps
  import opened RbEraseSpec

  /** Case 1, hole on the left: the red sibling is rotated above `parent`. */
  method Case1Left(parent: RNode, sibling: RNode, root: RRoot,
                   ghost p: RPath, ghost t: RTree, ghost c: Color, ghost s: RTree)
    returns (tmp: Node?<Color>)
    requires s.Bin? && s.n == sibling && Apart(p, parent, sibling, t, s.l, s.r)
    requires Linked(root, p, Bin(t, parent, c, s))
    modifies root, {parent, sibling}, Nodes(s.l), PathNodes(p)
    ensures Linked(root, p, Bin(Bin(t, parent, Red, Paint(s.l, Black)), sibling, c, s.r))
    ensures tmp == At(s.l)
  {
    PaintNodes(s.l, Black);
    NodesExist(t); NodesExist(s.r); PathNodesExist(p);
    assert Rep(s, parent.right, parent);
    tmp := sibling.left;
    parent.right := tmp;
    sibling.left := parent;
    AdoptBlack(tmp, parent, s.l, sibling);
    RotateSetParents(parent, sibling, root, Red, p, t, Paint(s.l, Black), s.r);
  }

  /** Case 3, hole on the left: right rotation at the sibling; its parent link is set by case 4. */
  method Case3Left(parent: RNode, sibling: RNode, tmp2: RNode, ghost s: RTree, ghost under: Node?<Color>)
    requires s.Bin? && s.n == sibling && s.l.Bin? && s.l.n == tmp2
    requires Distinct(s) && parent !in Nodes(s) && Rep(s, sibling, under)
    modifies {parent, sibling, tmp2}, Nodes(s.l.r)
    ensures parent.right == tmp2 && parent.left == old(parent.left)
    ensures parent.parent == old(parent.parent) && parent.data == old(parent.data)
    ensures tmp2.right == sibling && Rep(s.l.l, tmp2.left, tmp2)
    ensures Rep(Bin(Paint(s.l.r, Black), sibling, s.d, s.r), sibling, under)
  {
    assert Distinct(s.l) && Rep(s.l, sibling.left, sibling);
    PaintNodes(s.l.r, Black);
    NodesExist(s.l.l); NodesExist(s.r);
    var tmp1 := tmp2.right;
    sibling.left := tmp1;
    tmp2.right := sibling;
    parent.right := tmp2;
    AdoptBlack(tmp1, sibling, s.l.r, tmp2);
  }

  /** The children that change hands in case 4, hole on the left: `a` goes to `parent`, and `x`, at `tmp1`, turns black. */
  method CrossLeft(parent: RNode, sibling: RNode, tmp1: RNode,
                   ghost t: RTree, ghost a: RTree, ghost x: RTree, ghost under: Node?<Color>)
    requires parent != sibling && {parent, sibling} !! Nodes(t) + Nodes(a) + Nodes(x)
    requires Distinct(a) && Distinct(x) && Nodes(t) !! Nodes(a) + Nodes(x) && Nodes(a) !! Nodes(x)
    requires Rep(t, parent.left, parent) && Rep(a, sibling.left, sibling) && Rep(x, tmp1, under) && sibling.right == tmp1
    modifies parent`right, sibling`left, Nodes(a), Nodes(x)
    ensures sibling.left == parent && Rep(t, parent.left, parent) && Rep(a, parent.right, parent)
    ensures Rep(Paint(x, Black), sibling.right, sibling)
  {
    PaintNodes(x, Black);
    NodesExist(t); NodesExist(a); NodesExist(x);
    var tmp2 := sibling.left;
    parent.right := tmp2;
    sibling.left := parent;
    AdoptBlack(tmp1, sibling, x, under);
    Adopt(tmp2, parent, a, sibling);
  }

  /** Case 4, hole on the left: left rotation at `parent`; `x` is the tree at `tmp1`, to the right of `sibling`. */
  method Case4Left(parent: RNode, sibling: RNode, tmp1: RNode, root: RRoot,
                   ghost p: RPath, ghost t: RTree, ghost a: RTree, ghost x: RTree, ghost under: Node?<Color>)
    requires Apart(p, parent, sibling, t, a, x)
    requires Rep(t, parent.left, parent) && Rep(a, sibling.left, sibling) && Rep(x, tmp1, under) && sibling.right == tmp1
    requires parent.parent == Under(p, null) && RepPath(p, parent, root.node, null)
    modifies root, {parent, sibling}, Nodes(a), Nodes(x), PathNodes(p)
    ensures Linked(root, p, Bin(Bin(t, parent, Black, a), sibling, old(parent.data), Paint(x, Black)))
  {
    PaintNodes(x, Black);
    PathNodesExist(p);
    CrossLeft(parent, sibling, tmp1, t, a, x, under);
    RotateSetParents(parent, sibling, root, Black, p, t, a, Paint(x, Black));
  }

  /** The nodes of cases 3 and 4 are apart, before and after the rotation at the sibling. */
  lemma {:induction false} Case3Apart(p: RPath, parent: RNode, t: RTree, s: RTree)
    requires s.Bin? && Apart(p, parent, s.n, t, s.l, s.r)
    ensures Distinct(s) && parent !in Nodes(s)
  {
  }

  lemma {:induction false} Case3LeftApart(p: RPath, parent: RNode, t: RTree, s: RTree)
    requires s.Bin? && s.l.Bin? && Apart(p, parent, s.n, t, s.l, s.r)
    ensures Apart(p, parent, s.l.n, t, s.l.l, Bin(Paint(s.l.r, Black), s.n, s.d, s.r))
  {
    PaintNodes(s.l.r, Black);
  }

  /** Cases 3 and 4, hole on the left and the far nephew black. */
  method Case34Left(parent: RNode, sibling: RNode, tmp2: RNode, root: RRoot,
                    ghost p: RPath, ghost t: RTree, ghost c: Color, ghost s: RTree)
    requires s.Bin? && s.n == sibling && s.l.Bin? && s.l.n == tmp2 && Apart(p, parent, sibling, t, s.l, s.r)
    requires Linked(root, p, Bin(t, parent, c, s))
    modifies root, {parent, sibling}, Nodes(s.l), Nodes(s.r), PathNodes(p)
    ensures Linked(root, p, Bin(Bin(t, parent, Black, s.l.l), tmp2, c, Bin(Paint(s.l.r, Black), sibling, Black, s.r)))
  {
    Case3Apart(p, parent, t, s);
    Case3LeftApart(p, parent, t, s);
    NodesExist(t); PathNodesExist(p);
    assert Rep(s, parent.right, parent);
    Case3Left(parent, sibling, tmp2, s, parent);
    Case4Left(parent, tmp2, sibling, root, p, t, s.l.l, Bin(Paint(s.l.r, Black), sibling, s.d, s.r), parent);
  }

  /** Case 2, hole on the left: the sibling turns red; a red parent turns black and ends the loop. */
  method Case2Left(parent: RNode, sibling: RNode, root: RRoot,
                   ghost p: RPath, ghost t: RTree, ghost c: Color, ghost s: RTree)
    returns (climb: bool)
    requires s.Bin? && s.n == sibling && Apart(p, parent, sibling, t, s.l, s.r)
    requires Linked(root, p, Bin(t, parent, c, s))
    modifies {parent, sibling}
    ensures climb <==> c == Black
    ensures climb ==> Linked(root, p, Bin(t, parent, c, Paint(s, Red)))
    ensures !climb ==> Linked(root, Top, Plug(p, Bin(t, parent, Black, Paint(s, Red))))
  {
    assert Rep(s, parent.right, parent);
    sibling.parent, sibling.data := parent, Red;
    if parent.data == Red {
      parent.data := Black;
      LinkedUp(root, p, Bin(t, parent, Black, Paint(s, Red)));
      return false;
    }
    return true;
  }

  /** The loop body from case 2 on, hole on the left: `climb` says that the debt moves up to `parent`. */
  method SettleLeft(parent: RNode, sibling: RNode, root: RRoot,
                    ghost p: RPath, ghost t: RTree, ghost c: Color, ghost s: RTree)
    returns (climb: bool)
    requires s.Bin? && s.n == sibling && Apart(p, parent, sibling, t, s.l, s.r)
    requires Linked(root, p, Bin(t, parent, c, s))
    modifies root, {parent, sibling}, Nodes(s.l), Nodes(s.r), PathNodes(p)
    ensures climb <==> NoRedChild(s) && c == Black
    ensures climb ==> Linked(root, p, Bin(t, parent, c, Paint(s, Red)))
    ensures !climb ==> Linked(root, Top, FinishLeft(p, t, parent, c, s))
  {
    assert Rep(s, parent.right, parent);
    var tmp1 := sibling.right;
    assert Rep(s.r, tmp1, sibling);
    climb := false;
    if tmp1 == null || tmp1.data == Black {
      var tmp2 := sibling.left;
      assert Rep(s.l, tmp2, sibling);
      if tmp2 == null || tmp2.data == Black {
        climb := Case2Left(parent, sibling, root, p, t, c, s);
      } else {
        Case34Left(parent, sibling, tmp2, root, p, t, c, s);
        LinkedUp(root, p, Bin(Bin(t, parent, Black, s.l.l), tmp2, c, Bin(Paint(s.l.r, Black), sibling, Black, s.r)));
      }
    } else {
      Case4Left(parent, sibling, tmp1, root, p, t, s.l, s.r, sibling);
      LinkedUp(root, p, Bin(Bin(t, parent, Black, s.l), sibling, c, Paint(s.r, Black)));
    }
  }

  /** After case 1 the hole is one deeper, below a red parent. */
  lemma {:induction false} Case1LeftApart(root: RRoot, p: RPath, t: RTree, n: RNode, c: Color, s: RTree)
    requires s.Bin? && Apart(p, n, s.n, t, s.l, s.r) && s.l.Bin?
    requires Linked(root, p, Bin(Bin(t, n, Red, Paint(s.l, Black)), s.n, c, s.r))
    ensures Linked(root, L(p, s.n, c, s.r), Bin(t, n, Red, Paint(s.l, Black)))
    ensures Apart(L(p, s.n, c, s.r), n, s.l.n, t, s.l.l, s.l.r)
  {
    LinkedFill(root, L(p, s.n, c, s.r), Bin(t, n, Red, Paint(s.l, Black)));
  }

  /** The half of the loop body for a hole on the left. */
  method FixLeft(parent: RNode, root: RRoot, ghost p: RPath, ghost t: RTree, ghost c: Color, ghost s: RTree)
    returns (climb: bool)
    requires s.Bin? && Apart(p, parent, s.n, t, s.l, s.r) && (IsRed(s) ==> s.l.Bin?)
    requires Linked(root, p, Bin(t, parent, c, s))
    modifies root, {parent}, Nodes(s), PathNodes(p)
    ensures climb ==> c == Black && s.d == Black
    ensures climb ==> EraseFix(L(p, parent, c, s), t) == EraseFix(p, Bin(t, parent, c, Paint(s, Red)))
    ensures climb ==> Linked(root, p, Bin(t, parent, c, Paint(s, Red)))
    ensures !climb ==> Linked(root, Top, EraseFix(L(p, parent, c, s), t))
  {
    assert Rep(s, parent.right, parent);
    var sibling := parent.right;
    if sibling.data == Red {
      var tmp := Case1Left(parent, sibling, root, p, t, c, s);
      Case1LeftApart(root, p, t, parent, c, s);
      climb := SettleLeft(parent, tmp, root, L(p, s.n, c, s.r), t, Red, Paint(s.l, Black));
    } else {
      climb := SettleLeft(parent, sibling, root, p, t, c, s);
    }
  }

  // ----- the mirror images

  /** Case 1, hole on the right: the red sibling is rotated above `parent`. */
  method Case1Right(parent: RNode, sibling: RNode, root: RRoot,
                   ghost p: RPath, ghost t: RTree, ghost c: Color, ghost s: RTree)
    returns (tmp: Node?<Color>)
    requires s.Bin? && s.n == sibling && Apart(p, parent, sibling, t, s.r, s.l)
    requires Linked(root, p, Bin(s, parent, c, t))
    modifies root, {parent, sibling}, Nodes(s.r), PathNodes(p)
    ensures Linked(root, p, Bin(s.l, sibling, c, Bin(Paint(s.r, Black), parent, Red, t)))
    ensures tmp == At(s.r)
  {
    PaintNodes(s.r, Black);
    NodesExist(t); NodesExist(s.l); PathNodesExist(p);
    assert Rep(s, parent.left, parent);
    tmp := sibling.right;
    parent.left := tmp;
    sibling.right := parent;
    AdoptBlack(tmp, parent, s.r, sibling);
    RotateSetParents(parent, sibling, root, Red, p, Paint(s.r, Black), t, s.l);
  }

  /** Case 3, hole on the right: left rotation at the sibling; its parent link is set by case 4. */
  method Case3Right(parent: RNode, sibling: RNode, tmp2: RNode, ghost s: RTree, ghost under: Node?<Color>)
    requires s.Bin? && s.n == sibling && s.r.Bin? && s.r.n == tmp2
    requires Distinct(s) && parent !in Nodes(s) && Rep(s, sibling, under)
    modifies {parent, sibling, tmp2}, Nodes(s.r.l)
    ensures parent.left == tmp2 && parent.right == old(parent.right)
    ensures parent.parent == old(parent.parent) && parent.data == old(parent.data)
    ensures tmp2.left == sibling && Rep(s.r.r, tmp2.right, tmp2)
    ensures Rep(Bin(s.l, sibling, s.d, Paint(s.r.l, Black)), sibling, under)
  {
    assert Distinct(s.r) && Rep(s.r, sibling.right, sibling);
    PaintNodes(s.r.l, Black);
    NodesExist(s.r.r); NodesExist(s.l);
    var tmp1 := tmp2.left;
    sibling.right := tmp1;
    tmp2.left := sibling;
    parent.left := tmp2;
    AdoptBlack(tmp1, sibling, s.r.l, tmp2);
  }

  /** The children that change hands in case 4, hole on the right. */
  method CrossRight(parent: RNode, sibling: RNode, tmp1: RNode,
                    ghost t: RTree, ghost a: RTree, ghost x: RTree, ghost under: Node?<Color>)
    requires parent != sibling && {parent, sibling} !! Nodes(t) + Nodes(a) + Nodes(x)
    requires Distinct(a) && Distinct(x) && Nodes(t) !! Nodes(a) + Nodes(x) && Nodes(a) !! Nodes(x)
    requires Rep(t, parent.right, parent) && Rep(a, sibling.right, sibling) && Rep(x, tmp1, under) && sibling.left == tmp1
    modifies parent`left, sibling`right, Nodes(a), Nodes(x)
    ensures sibling.right == parent && Rep(t, parent.right, parent) && Rep(a, parent.left, parent)
    ensures Rep(Paint(x, Black), sibling.left, sibling)
  {
    PaintNodes(x, Black);
    NodesExist(t); NodesExist(a); NodesExist(x);
    var tmp2 := sibling.right;
    parent.left := tmp2;
    sibling.right := parent;
    AdoptBlack(tmp1, sibling, x, under);
    Adopt(tmp2, parent, a, sibling);
  }

  /** Case 4, hole on the right: right rotation at `parent`; `x` is the tree at `tmp1`, to the left of `sibling`. */
  method Case4Right(parent: RNode, sibling: RNode, tmp1: RNode, root: RRoot,
                   ghost p: RPath, ghost t: RTree, ghost a: RTree, ghost x: RTree, ghost under: Node?<Color>)
    requires Apart(p, parent, sibling, t, a, x)
    requires Rep(t, parent.right, parent) && Rep(a, sibling.right, sibling) && Rep(x, tmp1, under) && sibling.left == tmp1
    requires parent.parent == Under(p, null) && RepPath(p, parent, root.node, null)
    modifies root, {parent, sibling}, Nodes(a), Nodes(x), PathNodes(p)
    ensures Linked(root, p, Bin(Paint(x, Black), sibling, old(parent.data), Bin(a, parent, Black, t)))
  {
    PaintNodes(x, Black);
    PathNodesExist(p);
    CrossRight(parent, sibling, tmp1, t, a, x, under);
    RotateSetParents(parent, sibling, root, Black, p, a, t, Paint(x, Black));
  }

  lemma {:induction false} Case3RightApart(p: RPath, parent: RNode, t: RTree, s: RTree)
    requires s.Bin? && s.r.Bin? && Apart(p, parent, s.n, t, s.r, s.l)
    ensures Apart(p, parent, s.r.n, t, s.r.r, Bin(s.l, s.n, s.d, Paint(s.r.l, Black)))
  {
    PaintNodes(s.r.l, Black);
  }

  /** Cases 3 and 4, hole on the right and the far nephew black. */
  method Case34Right(parent: RNode, sibling: RNode, tmp2: RNode, root: RRoot,
                    ghost p: RPath, ghost t: RTree, ghost c: Color, ghost s: RTree)
    requires s.Bin? && s.n == sibling && s.r.Bin? && s.r.n == tmp2 && Apart(p, parent, sibling, t, s.r, s.l)
    requires Linked(root, p, Bin(s, parent, c, t))
    modifies root, {parent, sibling}, Nodes(s.r), Nodes(s.l), PathNodes(p)
    ensures Linked(root, p, Bin(Bin(s.l, sibling, Black, Paint(s.r.l, Black)), tmp2, c, Bin(s.r.r, parent, Black, t)))
  {
    Case3Apart(p, parent, t, s);
    Case3RightApart(p, parent, t, s);
    NodesExist(t); PathNodesExist(p);
    assert Rep(s, parent.left, parent);
    Case3Right(parent, sibling, tmp2, s, parent);
    Case4Right(parent, tmp2, sibling, root, p, t, s.r.r, Bin(s.l, sibling, s.d, Paint(s.r.l, Black)), parent);
  }

  /** Case 2, hole on the right: the sibling turns red; a red parent turns black and ends the loop. */
  method Case2Right(parent: RNode, sibling: RNode, root: RRoot,
                   ghost p: RPath, ghost t: RTree, ghost c: Color, ghost s: RTree)
    returns (climb: bool)
    requires s.Bin? && s.n == sibling && Apart(p, parent, sibling, t, s.r, s.l)
    requires Linked(root, p, Bin(s, parent, c, t))
    modifies {parent, sibling}
    ensures climb <==> c == Black
    ensures climb ==> Linked(root, p, Bin(Paint(s, Red), parent, c, t))
    ensures !climb ==> Linked(root, Top, Plug(p, Bin(Paint(s, Red), parent, Black, t)))
  {
    assert Rep(s, parent.left, parent);
    sibling.parent, sibling.data := parent, Red;
    if parent.data == Red {
      parent.data := Black;
      LinkedUp(root, p, Bin(Paint(s, Red), parent, Black, t));
      return false;
    }
    return true;
  }

  /** The loop body from case 2 on, hole on the right: `climb` says that the debt moves up to `parent`. */
  method SettleRight(parent: RNode, sibling: RNode, root: RRoot,
                    ghost p: RPath, ghost t: RTree, ghost c: Color, ghost s: RTree)
    returns (climb: bool)
    requires s.Bin? && s.n == sibling && Apart(p, parent, sibling, t, s.r, s.l)
    requires Linked(root, p, Bin(s, parent, c, t))
    modifies root, {parent, sibling}, Nodes(s.r), Nodes(s.l), PathNodes(p)
    ensures climb <==> NoRedChild(s) && c == Black
    ensures climb ==> Linked(root, p, Bin(Paint(s, Red), parent, c, t))
    ensures !climb ==> Linked(root, Top, FinishRight(p, s, parent, c, t))
  {
    assert Rep(s, parent.left, parent);
    var tmp1 := sibling.left;
    assert Rep(s.l, tmp1, sibling);
    climb := false;
    if tmp1 == null || tmp1.data == Black {
      var tmp2 := sibling.right;
      assert Rep(s.r, tmp2, sibling);
      if tmp2 == null || tmp2.data == Black {
        climb := Case2Right(parent, sibling, root, p, t, c, s);
      } else {
        Case34Right(parent, sibling, tmp2, root, p, t, c, s);
        LinkedUp(root, p, Bin(Bin(s.l, sibling, Black, Paint(s.r.l, Black)), tmp2, c, Bin(s.r.r, parent, Black, t)));
      }
    } else {
      Case4Right(parent, sibling, tmp1, root, p, t, s.r, s.l, sibling);
      LinkedUp(root, p, Bin(Paint(s.l, Black), sibling, c, Bin(s.r, parent, Black, t)));
    }
  }

  /** After case 1 the hole is one deeper, below a red parent. */
  lemma {:induction false} Case1RightApart(root: RRoot, p: RPath, t: RTree, n: RNode, c: Color, s: RTree)
    requires s.Bin? && Apart(p, n, s.n, t, s.r, s.l) && s.r.Bin?
    requires Linked(root, p, Bin(s.l, s.n, c, Bin(Paint(s.r, Black), n, Red, t)))
    ensures Linked(root, R(s.l, s.n, c, p), Bin(Paint(s.r, Black), n, Red, t))
    ensures Apart(R(s.l, s.n, c, p), n, s.r.n, t, s.r.r, s.r.l)
  {
    LinkedFill(root, R(s.l, s.n, c, p), Bin(Paint(s.r, Black), n, Red, t));
  }

  /** The half of the loop body for a hole on the right. */
  method FixRight(parent: RNode, root: RRoot, ghost p: RPath, ghost t: RTree, ghost c: Color, ghost s: RTree)
    returns (climb: bool)
    requires s.Bin? && Apart(p, parent, s.n, t, s.r, s.l) && (IsRed(s) ==> s.r.Bin?)
    requires Linked(root, p, Bin(s, parent, c, t))
    modifies root, {parent}, Nodes(s), PathNodes(p)
    ensures climb ==> c == Black && s.d == Black
    ensures climb ==> EraseFix(R(s, parent, c, p), t) == EraseFix(p, Bin(Paint(s, Red), parent, c, t))
    ensures climb ==> Linked(root, p, Bin(Paint(s, Red), parent, c, t))
    ensures !climb ==> Linked(root, Top, EraseFix(R(s, parent, c, p), t))
  {
    assert Rep(s, parent.left, parent);
    var sibling := parent.left;
    if sibling.data == Red {
      var tmp := Case1Right(parent, sibling, root, p, t, c, s);
      Case1RightApart(root, p, t, parent, c, s);
      climb := SettleRight(parent, tmp, root, R(s.l, s.n, c, p), t, Red, Paint(s.r, Black));
    } else {
      climb := SettleRight(parent, sibling, root, p, t, c, s);
    }
  }

  // ----- the loop

  lemma {:induction false} FixNodes(p: RPath, t: RTree)
    requires Search(EraseFix(p, t))
    ensures Search(Plug(p, t)) && Separate(p, t)
    ensures PathNodes(p) + Nodes(t) == NodeSet(EraseFix(p, t))
  {
    EraseFixInorder(p, t);
    SearchSeparate(p, t);
    SameNodes(p, t);
  }

  ghost function Sibling(p: RPath): RTree
    requires !p.Top?
  {
    if p.L? then p.r else p.l
  }

  /** The sibling across from a hole that is one black short exists, and so do the children of a red one. */
  lemma {:induction false} SiblingExists(root: RRoot, p: RPath, t: RTree, h: int, whole: int)
    requires !p.Top? && Linked(root, p, t) && Separate(p, t)
    requires Blacks(t, h) && PathBlacks(p, h + 1, whole)
    ensures var s := Sibling(p); s.Bin? && (IsRed(s) ==> s.l.Bin? && s.r.Bin?)
    ensures var s := Sibling(p); Apart(p.up, p.n, s.n, t, s.l, s.r)
    ensures p.n.right == At(t) <==> p.R?
    ensures Linked(root, p.up, Fill(p, t)) && p.n.parent == Under(p.up, null)
  {
    var s := Sibling(p);
    BlacksNonNegative(t, h);
    BlacksNonNegative(s, h + 1);
    if IsRed(s) {
      BlacksNonNegative(s.l, h + 1);
      BlacksNonNegative(s.r, h + 1);
    }
    LinkedFill(root, p, t);
    assert Distinct(s);
    if p.L? {
      assert Rep(s, p.n.right, p.n);
    }
  }

  /** One round of the loop; on `climb` the debt has moved one frame up. */
  method Step(node: Node?<Color>, parent: RNode, root: RRoot, ghost p: RPath, ghost t: RTree, ghost h: int, ghost whole: int)
    returns (climb: bool, ghost t': RTree)
    requires !p.Top? && p.n == parent && node == At(t) && Linked(root, p, t) && Separate(p, t)
    requires Blacks(t, h) && PathBlacks(p, h + 1, whole)
    modifies root, Nodes(t), PathNodes(p)
    ensures climb ==> Linked(root, p.up, t') && t'.Bin? && t'.n == parent && EraseFix(p.up, t') == EraseFix(p, t)
    ensures climb ==> Blacks(t', h + 1) && PathBlacks(p.up, h + 2, whole)
    ensures !climb ==> Linked(root, Top, EraseFix(p, t))
  {
    SiblingExists(root, p, t, h, whole);
    ghost var s, c := Sibling(p), p.d;
    if node != parent.right {
      climb := FixLeft(parent, root, p.up, t, c, s);
      t' := Bin(t, parent, c, Paint(s, Red));
    } else {
      climb := FixRight(parent, root, p.up, t, c, s);
      t' := Bin(Paint(s, Red), parent, c, t);
    }
  }

  /** One round, and the move to the parent above. No parent above means that the loop is over. */
  method Round(node: Node?<Color>, parent: RNode, root: RRoot, ghost p: RPath, ghost t: RTree, ghost h: int, ghost whole: int,
               ghost goal: RTree) returns (up: Node?<Color>, ghost t': RTree)
    requires !p.Top? && p.n == parent && node == At(t) && Linked(root, p, t)
    requires Blacks(t, h) && PathBlacks(p, h + 1, whole) && EraseFix(p, t) == goal && Search(goal)
    modifies root, NodeSet(goal)
    ensures up == null ==> Linked(root, Top, goal)
    ensures up != null ==> !p.up.Top? && p.up.n == up && t'.Bin? && t'.n == parent && Linked(root, p.up, t')
    ensures up != null ==> Blacks(t', h + 1) && PathBlacks(p.up, h + 2, whole) && EraseFix(p.up, t') == goal
  {
    FixNodes(p, t);
    var climb;
    climb, t' := Step(node, parent, root, p, t, h, whole);
    up := if climb then parent.parent else null;
  }

  lemma {:induction false} GoalNodes(p: RPath)
    requires Search(Plug(p, Leaf))
    ensures Search(EraseFix(p, Leaf)) && NodeSet(EraseFix(p, Leaf)) == Nodes(Plug(p, Leaf))
  {
    EraseFixInorder(p, Leaf);
    SameNodes(p, Leaf);
  }

  /** `____rb_erase_color`: repays the black node missing below `parent0`, starting from a missing child. */
  method EraseColor(parent0: RNode, root: RRoot, ghost p0: RPath, ghost whole: int)
    requires !p0.Top? && p0.n == parent0 && Linked(root, p0, Leaf)
    requires PathBlacks(p0, 1, whole) && Search(Plug(p0, Leaf))
    modifies root, Nodes(Plug(p0, Leaf))
    ensures Linked(root, Top, EraseFix(p0, Leaf))
  {
    GoalNodes(p0);
    ghost var goal := EraseFix(p0, Leaf);
    var node: Node?<Color>, parent := null, parent0;
    ghost var p, t, h := p0, Leaf, 0;
    while true
      invariant !p.Top? && p.n == parent && node == At(t) && Linked(root, p, t)
      invariant Blacks(t, h) && PathBlacks(p, h + 1, whole)
      invariant EraseFix(p, t) == goal
      decreases p
    {
      var up;
      ghost var t';
      up, t' := Round(node, parent, root, p, t, h, whole, goal);
      if up == null {
        return;
      }
      p, t, h := p.up, t', h + 1;
      node, parent := parent, up;
    }
  }
}
