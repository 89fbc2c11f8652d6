/** What the S-tree operations compute, as functions on tree values. The data of a node is its hint. */
module StSpec {
  import opened LinkedTree
  import opened TreeOrder
  import opened TreeSpine

  type STree = Tree<int>
  type SPath = Path<int>
  type SNode = Node<int>

  /** One more than the hint of a subtree, 0 for a missing one. */
  ghost function Chain(t: STree): int {
    if t.Leaf? then 0 else t.d + 1
  }

  ghost function MaxHint(l: STree, r: STree): int {
    if Chain(l) > Chain(r) then Chain(l) else Chain(r)
  }

  /** No hint is negative. */
  ghost predicate Hints(t: STree) {
    match t
    case Leaf => true
    case Bin(l, _, h, r) => h >= 0 && Hints(l) && Hints(r)
  }

  ghost predicate PathHints(p: SPath) {
    match p
    case Top => true
    case L(up, _, h, r) => h >= 0 && Hints(r) && PathHints(up)
    case R(l, _, h, up) => h >= 0 && Hints(l) && PathHints(up)
  }

  lemma {:induction false} PlugHints(p: SPath, t: STree)
    ensures Hints(Plug(p, t)) <==> Hints(t) && PathHints(p)
  {
    match p
    case Top =>
    case L(up, n, h, r) => PlugHints(up, Bin(t, n, h, r));
    case R(l, n, h, up) => PlugHints(up, Bin(l, n, h, t));
  }

  /** A subtree after at most one rotation at its root, the old root with its new hint. */
  ghost function Balanced(t: STree): (STree, int)
    requires t.Bin?
  {
    var b := Chain(t.l) - Chain(t.r);
    if b < -1 && t.r.Bin? then
      var h := MaxHint(t.l, t.r.l);
      (Bin(Bin(t.l, t.n, h, t.r.l), t.r.n, t.r.d, t.r.r), h)
    else if b > 1 && t.l.Bin? then
      var h := MaxHint(t.l.r, t.r);
      (Bin(t.l.l, t.l.n, t.l.d, Bin(t.l.r, t.n, h, t.r)), h)
    else
      var h := MaxHint(t.l, t.r);
      (Bin(t.l, t.n, h, t.r), h)
  }

  /** `st_update`: climbs to the parent from before the rotation while hints are zero or change. */
  ghost function Update(p: SPath, t: STree): STree
    decreases p
  {
    if t.Leaf? then Plug(p, t)
    else
      var (t', h) := Balanced(t);
      if (h == 0 || h != t.d) && !p.Top? then Update(p.up, Fill(p, t')) else Plug(p, t')
  }

  lemma {:induction false} BalancedKeeps(t: STree)
    requires t.Bin? && Hints(t)
    ensures Hints(Balanced(t).0) && Inorder(Balanced(t).0) == Inorder(t)
  {
    if t.r.Bin? {
      RotateInorder(t.l, t.n, t.r.l, t.r.n, t.r.r, MaxHint(t.l, t.r.l), t.r.d, t.d, t.r.d);
    }
    if t.l.Bin? {
      RotateInorder(t.l.l, t.l.n, t.l.r, t.n, t.r, t.l.d, t.d, t.l.d, MaxHint(t.l.r, t.r));
    }
  }

  /** Updating keeps the order and leaves no negative hint. */
  lemma {:induction false} UpdateKeeps(p: SPath, t: STree)
    requires Hints(Plug(p, t))
    ensures Inorder(Update(p, t)) == Inorder(Plug(p, t)) && Hints(Update(p, t))
    decreases p
  {
    PlugHints(p, t);
    if t.Bin? {
      var (t', h) := Balanced(t);
      BalancedKeeps(t);
      SameInorder(p, t, t');
      PlugHints(p, t');
      if !p.Top? {
        assert Plug(p.up, Fill(p, t')) == Plug(p, t');
        UpdateKeeps(p.up, Fill(p, t'));
      }
    }
  }

  /** Where `__st_remove` leaves the tree and where its update starts. */
  datatype Start = Start(p: SPath, t: STree)

  ghost function Cut(p: SPath, l: STree, r: STree): Start {
    if r.Bin? then
      var m := Min(r);
      Start(R(l, m.n, m.d, p), Plug(Spine(Top, r), m.r))
    else if l.Bin? then
      var m := Max(l);
      Start(L(p, m.n, m.d, r), Plug(RightSpine(Top, l), m.l))
    else if p.Top? then
      Start(Top, Leaf)
    else
      Start(p.up, Fill(p, Leaf))
  }

  /** `__st_remove` */
  ghost function Removed(p: SPath, l: STree, r: STree): STree {
    var s := Cut(p, l, r);
    Update(s.p, s.t)
  }

  lemma {:induction false} CutHints(p: SPath, l: STree, n: SNode, h: int, r: STree)
    requires Hints(Plug(p, Bin(l, n, h, r)))
    ensures var s := Cut(p, l, r); Hints(Plug(s.p, s.t))
  {
    PlugHints(p, Bin(l, n, h, r));
    var s := Cut(p, l, r);
    PlugHints(s.p, s.t);
    if r.Bin? {
      SpinePlug(Top, r);
      PlugHints(Spine(Top, r), Min(r));
      PlugHints(Spine(Top, r), Min(r).r);
    } else if l.Bin? {
      RightSpinePlug(Top, l);
      PlugHints(RightSpine(Top, l), Max(l));
      PlugHints(RightSpine(Top, l), Max(l).l);
    }
  }

  lemma {:induction false} CutInorder(p: SPath, l: STree, r: STree)
    ensures var s := Cut(p, l, r);
      Inorder(Plug(s.p, s.t)) == (Before(p) + Inorder(l)) + (Inorder(r) + After(p))
  {
    if r.Bin? {
      SuccessorInorder(p, l, Min(r).d, r, Min(r).r);
      AppendPlug(Spine(Top, r), R(l, Min(r).n, Min(r).d, p), Min(r).r);
    } else if l.Bin? {
      PredecessorInorder(p, l, Max(l).d, r, Max(l).l);
      AppendPlug(RightSpine(Top, l), L(p, Max(l).n, Max(l).d, r), Max(l).l);
    } else {
      PlugInorder(p, Leaf);
    }
  }

  /** Removing takes one node out of the order and leaves everything else in place. */
  lemma {:induction false} RemovedKeeps(p: SPath, l: STree, n: SNode, h: int, r: STree)
    requires Hints(Plug(p, Bin(l, n, h, r)))
    ensures Inorder(Removed(p, l, r)) == (Before(p) + Inorder(l)) + (Inorder(r) + After(p))
    ensures Hints(Removed(p, l, r))
  {
    var s := Cut(p, l, r);
    CutHints(p, l, n, h, r);
    CutInorder(p, l, r);
    UpdateKeeps(s.p, s.t);
  }
}
