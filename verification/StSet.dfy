/** `s_tree.c` with the comparator of `treeint_st.c`: a set of integers kept in an S-tree. */
module StSet {
  import opened LinkedTree
  import opened TreeOrder
  import opened StSpec
  import opened StUpdate
  import opened StRemove
  import IntSet

  const INT_MIN: int := -0x8000_0000
  const INT_MAX: int := 0x7FFF_FFFF

  predicate IsInt(x: int) {
    INT_MIN <= x <= INT_MAX
  }

  /** The 32-bit value of a difference of two ints, which overflows at most once. */
  function WrapInt(x: int): (r: int)
    requires INT_MIN - INT_MAX <= x <= INT_MAX - INT_MIN
    ensures IsInt(r) && (r == x || r == x - 0x1_0000_0000 || r == x + 0x1_0000_0000)
  {
    if x > INT_MAX then x - 0x1_0000_0000 else if x < INT_MIN then x + 0x1_0000_0000 else x
  }

  /** `treeint_st_cmp` */
  function Cmp(value: int, key: int): int
    requires IsInt(value) && IsInt(key)
  {
    WrapInt(value - key)
  }

  /** The comparator has the right sign exactly when the difference fits. */
  lemma CmpOrders(value: int, key: int)
    requires IsInt(value) && IsInt(key)
    ensures Cmp(value, key) == 0 <==> value == key
    ensures (Cmp(value, key) < 0 <==> value < key) <==> IsInt(value - key)
    ensures IsInt(value - key) ==> Cmp(value, key) == value - key
  {
  }

  /** Subtracting the smallest int from the largest one gives a negative number: the order is lost. */
  lemma CmpLosesOrder()
    ensures INT_MAX > INT_MIN && Cmp(INT_MAX, INT_MIN) == -1
  {
  }

  ghost predicate InReach(s: set<int>, a: int) {
    IsInt(a) && forall k :: k in s ==> IsInt(k) && IsInt(k - a)
  }

  /** The pointers at `root` form a search tree without negative hints. */
  ghost predicate Holds(root: SRoot, t: STree)
    reads root, Nodes(t)
  {
    Linked(root, Top, t) && Search(t) && Hints(t)
  }

  class IntTree {
    const root: SRoot
    ghost var tree: STree

    ghost predicate Valid()
      reads this, root, Nodes(tree)
    {
      Holds(root, tree)
    }

    ghost function Model(): set<int>
      reads this
    {
      Keys(tree)
    }

    /** `st_create` */
    constructor ()
      ensures Valid() && Model() == {} && fresh(root) && tree == Leaf
    {
      root := new Root();
      tree := Leaf;
    }

    /** `__st_find2`; `p` and `t` are where the search ended. */
    method Locate(a: int) returns (n: Node?<int>, ghost p: SPath, ghost t: STree)
      requires Valid() && InReach(Model(), a)
      ensures n != null <==> a in Model()
      ensures n != null ==> n.value == a && t.Bin? && t.n == n
      ensures tree == Plug(p, t) && Linked(root, p, t) && At(t) == n
    {
      n, p, t := root.node, Top, tree;
      while n != null
        invariant tree == Plug(p, t) && Linked(root, p, t) && At(t) == n && Between(p, a)
        decreases t
      {
        FoundKey(p, t);
        assert n.value in Model();
        var cmp := Cmp(n.value, a);
        CmpOrders(n.value, a);
        if cmp == 0 {
          return;
        }
        DescendBetween(p, t, a);
        if cmp > 0 {
          LinkedFill(root, L(p, t.n, t.d, t.r), t.l);
          p, t := L(p, t.n, t.d, t.r), t.l;
          n := n.left;
        } else {
          LinkedFill(root, R(t.l, t.n, t.d, p), t.r);
          p, t := R(t.l, t.n, t.d, p), t.r;
          n := n.right;
        }
      }
      HoleMissing(p, a);
    }

    /** `st_find` */
    method Find(a: int) returns (n: Node?<int>)
      requires Valid() && InReach(Model(), a)
      ensures n != null <==> a in Model()
      ensures n != null ==> n.value == a
    {
      ghost var p, t;
      n, p, t := Locate(a);
    }

    /** `st_remove` */
    method Remove(a: int) returns (code: int)
      requires Valid() && InReach(Model(), a)
      modifies this, root, Nodes(tree)
      ensures Valid() && Nodes(tree) <= old(Nodes(tree))
      ensures IntSet.Code(code) == IntSet.Answers(old(Model()), IntSet.Remove(a))
      ensures Model() == IntSet.After(old(Model()), IntSet.Remove(a))
    {
      NodesExist(tree);
      ghost var p, t;
      var n;
      n, p, t := Locate(a);
      if n == null {
        return -1;
      }
      CutHolds(p, t.l, n, t.d, t.r);
      RemoveNode(n, root, p, t.l, t.d, t.r);
      tree := Removed(p, t.l, t.r);
      SameNodes(Top, tree);
      SameNodes(p, t);
      return 0;
    }

    /** `__st_find` as `st_insert` uses it: the parent and the side to hang a missing key on. */
    method Descend(a: int) returns (found: Node?<int>, parent: Node?<int>, left: bool, ghost p: SPath)
      requires Valid() && InReach(Model(), a)
      ensures found != null <==> a in Model()
      ensures found == null ==> tree == Plug(p, Leaf) && Linked(root, p, Leaf) && Between(p, a) && parent == Under(p, null)
      ensures found == null && parent != null ==> (if left then p.L? else p.R?)
    {
      var n := root.node;
      ghost var t := tree;
      parent, left, p := null, false, Top;
      while n != null
        invariant tree == Plug(p, t) && Linked(root, p, t) && At(t) == n && Between(p, a)
        invariant parent == Under(p, null)
        invariant parent != null ==> (if left then p.L? else p.R?)
        decreases t
      {
        FoundKey(p, t);
        assert n.value in Model();
        var cmp := Cmp(n.value, a);
        CmpOrders(n.value, a);
        if cmp == 0 {
          return n, parent, left, p;
        }
        DescendBetween(p, t, a);
        parent := n;
        if cmp > 0 {
          LinkedFill(root, L(p, t.n, t.d, t.r), t.l);
          p, t := L(p, t.n, t.d, t.r), t.l;
          n, left := n.left, true;
        } else {
          LinkedFill(root, R(t.l, t.n, t.d, p), t.r);
          p, t := R(t.l, t.n, t.d, p), t.r;
          n, left := n.right, false;
        }
      }
      HoleMissing(p, a);
      return null, parent, left, p;
    }

    /** `st_insert` */
    method Insert(a: int) returns (code: int)
      requires Valid() && InReach(Model(), a)
      modifies this, root, Nodes(tree)
      ensures Valid() && fresh(Nodes(tree) - old(Nodes(tree)))
      ensures IntSet.Code(code) == IntSet.Answers(old(Model()), IntSet.Insert(a))
      ensures Model() == IntSet.After(old(Model()), IntSet.Insert(a))
    {
      NodesExist(tree);
      ghost var p;
      var found, parent, left;
      found, parent, left, p := Descend(a);
      if found != null {
        return -1;
      }
      PathNodesExist(p);
      var n := new Node(a, 0);
      tree := AddNode(n, parent, left, root, p);
      return 0;
    }
  }

  /** Hanging a node with hint 0 into its hole keeps order and hints. */
  lemma {:induction false} AddedHolds(p: SPath, n: SNode)
    requires Search(Plug(p, Leaf)) && Hints(Plug(p, Leaf)) && Between(p, n.value)
    ensures var t := Bin(Leaf, n, 0, Leaf);
      && Search(Plug(p, t)) && Hints(Plug(p, t)) && Search(Update(p, t)) && Hints(Update(p, t))
      && NodeSet(Update(p, t)) == NodeSet(Plug(p, t))
      && Keys(Update(p, t)) == Keys(Plug(p, Leaf)) + {n.value}
  {
    var t := Bin(Leaf, n, 0, Leaf);
    HoleAdds(p, n, 0);
    PlugHints(p, Leaf);
    PlugHints(p, t);
    UpdateKeeps(p, t);
  }

  /** `__st_insert`, and the case of an empty tree in `st_insert`. */
  method AddNode(n: SNode, parent: Node?<int>, left: bool, root: SRoot, ghost p: SPath) returns (ghost tree: STree)
    requires Holds(root, Plug(p, Leaf)) && Linked(root, p, Leaf) && n !in Nodes(Plug(p, Leaf))
    requires Between(p, n.value) && parent == Under(p, null)
    requires parent != null ==> (if left then p.L? else p.R?)
    requires n.data == 0 && n.left == null && n.right == null && n.parent == null
    modifies root, n, Nodes(Plug(p, Leaf))
    ensures Holds(root, tree) && Nodes(tree) == Nodes(Plug(p, Leaf)) + {n}
    ensures Keys(tree) == Keys(Plug(p, Leaf)) + {n.value}
  {
    ghost var t := Bin(Leaf, n, 0, Leaf);
    AddedHolds(p, n);
    SearchSeparate(p, Leaf);
    PlugNodes(p, Leaf);
    PlugNodes(p, t);
    SameNodes(p, t);
    if parent != null {
      Hang(n, parent, left, root, p);
      UpdateFrom(root, n, p, t);
      tree := Update(p, t);
    } else {
      root.node := n;
      tree := t;
      SingleUpdate(n);
      assert p.Top? && Rep(t, n, null);
    }
    SameNodes(Top, tree);
  }

  /** An update of a lone node would change nothing, so leaving it out makes no difference. */
  lemma {:induction false} SingleUpdate(n: SNode)
    ensures Update(Top, Bin(Leaf, n, 0, Leaf)) == Bin(Leaf, n, 0, Leaf)
  {
  }

  method Hang(n: SNode, parent: SNode, left: bool, root: SRoot, ghost p: SPath)
    requires Linked(root, p, Leaf) && DistinctPath(p) && n !in PathNodes(p) && parent == Under(p, null)
    requires if left then p.L? else p.R?
    requires n.data == 0 && n.left == null && n.right == null
    modifies n, PathNodes(p)
    ensures Linked(root, p, Bin(Leaf, n, 0, Leaf))
  {
    if left {
      parent.left := n;
    } else {
      parent.right := n;
    }
    n.parent := parent;
  }
}
