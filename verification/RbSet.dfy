/** `treeint_rb.c`: a set of integers kept in a red-black tree. */
module RbSet {
  import opened LinkedTree
  import opened TreeOrder
  import opened Arithmetic
  import opened RedBlack
  import opened RbSteps
  import opened RbEraseSpec
  import RbInsert
  import RbErase
  import RbUnlink
  import IntSet

  // ----- height

  ghost function Height<D>(t: Tree<D>): nat {
    match t
    case Leaf => 0
    case Bin(l, _, _, r) => 1 + if Height(l) > Height(r) then Height(l) else Height(r)
  }

  lemma {:induction false} BlackHeightBounds(t: RTree, h: int)
    requires Blacks(t, h) && NoRedRed(t)
    ensures h >= 0 && Pow2(h) <= |Inorder(t)| + 1
    ensures Height(t) <= 2 * h + if IsRed(t) then 1 else 0
  {
    BlacksUnique(t, h);
    match t
    case Leaf =>
    case Bin(l, _, c, r) =>
      var k := if c == Black then h - 1 else h;
      BlackHeightBounds(l, k);
      BlackHeightBounds(r, k);
  }

  lemma {:induction false} KeysSize<D>(s: seq<Node<D>>)
    requires Sorted(s)
    ensures |KeysOf(s)| == |s|
  {
    if s != [] {
      var k := |s| - 1;
      var f := s[..k];
      assert s == f + [s[k]] + [];
      KeysSize(f);
      assert s == f + [s[k]];
      SortedAppend(f, [s[k]]);
      KeysAppend(f, s[k], []);
      assert f + [] == f;
      assert s[k].value !in KeysOf(f);
    }
  }

  /** A red-black tree of n keys has height at most 2 log2(n + 1). */
  lemma {:induction false} HeightBound(t: RTree)
    requires IsRedBlack(t) && Search(t)
    ensures Pow2(Height(t)) <= (|Keys(t)| + 1) * (|Keys(t)| + 1)
  {
    var h := BlackHeight(t);
    BlackHeightBounds(t, h);
    KeysSize(Inorder(t));
    Pow2Mono(Height(t), h + h);
    Pow2Add(h, h);
    SquareMono(Pow2(h), |Keys(t)| + 1);
  }

  lemma {:induction false} SquareMono(a: nat, b: nat)
    requires a <= b
    ensures a * a <= b * b
  {
    assert a * a <= a * b <= b * b;
  }

  // ----- the set

  /** The pointers at `root` form a red-black search tree. */
  ghost predicate Holds(root: RRoot, t: RTree)
    reads root, Nodes(t)
  {
    Linked(root, Top, t) && Search(t) && IsRedBlack(t)
  }

  /** `rb_link_node` and `rb_insert_color` on a hole that the new key fits into keep the tree and add the key. */
  lemma {:induction false} InsertedHolds(p: RPath, n: RNode, whole: int)
    requires Search(Plug(p, Leaf)) && Rules(Plug(p, Leaf), whole) && Between(p, n.value)
    ensures PathNoRedRed(p, false) && Search(Plug(p, Bin(Leaf, n, Red, Leaf)))
    ensures var t' := InsertFix(p, Bin(Leaf, n, Red, Leaf));
      && Search(t') && IsRedBlack(t') && Keys(t') == Keys(Plug(p, Leaf)) + {n.value}
      && NodeSet(t') == NodeSet(Plug(p, Bin(Leaf, n, Red, Leaf)))
  {
    var t := Bin(Leaf, n, Red, Leaf);
    HoleAdds(p, n, Red);
    var h := PluggedBlacks(p, Leaf, whole);
    PlugNoRedRed(p, Leaf);
    InsertFixInorder(p, t);
    var grown := InsertFixRules(p, t, h, whole);
    BlacksUnique(InsertFix(p, t), grown);
  }

  /** Erasing keeps the tree and removes one key. */
  lemma {:induction false} ErasedHolds(p: RPath, l: RTree, n: RNode, d: Color, r: RTree, whole: int)
    requires Search(Plug(p, Bin(l, n, d, r))) && Rules(Plug(p, Bin(l, n, d, r)), whole)
    ensures var t' := Erase(p, l, d, r);
      && Search(t') && IsRedBlack(t') && Keys(t') == Keys(Plug(p, Bin(l, n, d, r))) - {n.value}
      && NodeSet(t') <= NodeSet(Plug(p, Bin(l, n, d, r)))
  {
    InorderAround(p, Bin(l, n, d, r));
    OneRemoved(Before(p) + Inorder(l), n, Inorder(r) + TreeOrder.After(p));
    EraseInorder(p, l, d, r);
    var kept := EraseRules(p, l, n, d, r, whole);
    BlacksUnique(Erase(p, l, d, r), kept);
  }

  /** After unlinking, the position of a missing black node is one the rebalancing loop can start from. */
  lemma {:induction false} DebtStarts(p: RPath, l: RTree, n: RNode, d: Color, r: RTree, whole: int)
    requires Search(Plug(p, Bin(l, n, d, r))) && Rules(Plug(p, Bin(l, n, d, r)), whole)
    ensures var s := Unlink(p, l, d, r);
      && Search(Plug(s.p, s.t)) && NodeSet(Plug(s.p, s.t)) <= NodeSet(Plug(p, Bin(l, n, d, r)))
      && (s.debt ==> s.t.Leaf? && PathBlacks(s.p, 1, whole))
  {
    ErasedHolds(p, l, n, d, r, whole);
    var s := Unlink(p, l, d, r);
    EraseFixInorder(s.p, s.t);
    EraseInorder(p, l, d, r);
    InorderAround(p, Bin(l, n, d, r));
    var h := UnlinkRules(p, l, n, d, r, whole);
    BlacksUnique(s.t, h);
  }

  /** `rb_erase`. */
  method EraseNode(node: RNode, root: RRoot, ghost p: RPath, ghost l: RTree, ghost d: Color, ghost r: RTree)
    requires Linked(root, p, Bin(l, node, d, r)) && Search(Plug(p, Bin(l, node, d, r)))
    requires IsRedBlack(Plug(p, Bin(l, node, d, r)))
    modifies root, Nodes(Plug(p, Bin(l, node, d, r)))
    ensures Holds(root, Erase(p, l, d, r)) && Nodes(Erase(p, l, d, r)) <= Nodes(Plug(p, Bin(l, node, d, r)))
    ensures Keys(Erase(p, l, d, r)) == Keys(Plug(p, Bin(l, node, d, r))) - {node.value}
  {
    ghost var t := Bin(l, node, d, r);
    ghost var whole := BlackHeight(Plug(p, t));
    ghost var s := Unlink(p, l, d, r);
    SearchSeparate(p, t);
    SameNodes(p, t);
    ErasedHolds(p, l, node, d, r, whole);
    DebtStarts(p, l, node, d, r, whole);
    SameNodes(s.p, s.t);
    SameNodes(Top, Erase(p, l, d, r));
    var rebalance := RbUnlink.EraseAugmented(node, root, p, l, d, r);
    if rebalance != null {
      RbErase.EraseColor(rebalance, root, s.p, whole);
    } else {
      LinkedUp(root, s.p, s.t);
    }
  }

  class IntTree {
    const root: RRoot
    ghost var tree: RTree

    ghost predicate Valid()
      reads this, root, Nodes(tree)
    {
      Holds(root, tree)
    }

    ghost function Model(): set<int>
      reads this
    {
      Keys(tree)
    }

    /** `treeint_rb_init` */
    constructor ()
      ensures Valid() && Model() == {} && fresh(root) && tree == Leaf
    {
      root := new Root();
      tree := Leaf;
    }

    /** The loop of `treeint_rb_find`; `steps` counts the loop rounds, `p` and `t` are where the search ended. */
    method Locate(a: int) returns (n: Node?<Color>, ghost steps: nat, ghost p: RPath, ghost t: RTree)
      requires Valid()
      ensures n != null <==> a in Model()
      ensures n != null ==> n.value == a && t.Bin? && t.n == n
      ensures tree == Plug(p, t) && Linked(root, p, t) && At(t) == n
      ensures steps <= Height(tree)
    {
      n, steps, p, t := root.node, 0, Top, tree;
      while n != null
        invariant tree == Plug(p, t) && Linked(root, p, t) && At(t) == n
        invariant Between(p, a) && steps + Height(t) <= Height(tree)
        decreases t
      {
        if a == n.value {
          FoundKey(p, t);
          return;
        }
        DescendBetween(p, t, a);
        if a < n.value {
          LinkedFill(root, L(p, t.n, t.d, t.r), t.l);
          p, t := L(p, t.n, t.d, t.r), t.l;
          n := n.left;
        } else {
          LinkedFill(root, R(t.l, t.n, t.d, p), t.r);
          p, t := R(t.l, t.n, t.d, p), t.r;
          n := n.right;
        }
        steps := steps + 1;
      }
      HoleMissing(p, a);
    }

    /** `treeint_rb_find`, with the bound that balance gives. */
    method Find(a: int) returns (n: Node?<Color>, ghost steps: nat)
      requires Valid()
      ensures n != null <==> a in Model()
      ensures n != null ==> n.value == a
      ensures Pow2(steps) <= (|Model()| + 1) * (|Model()| + 1)
    {
      ghost var p, t;
      n, steps, p, t := Locate(a);
      HeightBound(tree);
      Pow2Mono(steps, Height(tree));
    }

    /** `treeint_rb_remove` */
    method Remove(a: int) returns (code: int)
      requires Valid()
      modifies this, root, Nodes(tree)
      ensures Valid() && Nodes(tree) <= old(Nodes(tree))
      ensures IntSet.Code(code) == IntSet.Answers(old(Model()), IntSet.Remove(a))
      ensures Model() == IntSet.After(old(Model()), IntSet.Remove(a))
    {
      NodesExist(tree);
      ghost var steps, p, t;
      var n;
      n, steps, p, t := Locate(a);
      if n == null {
        return -1;
      }
      EraseNode(n, root, p, t.l, t.d, t.r);
      tree := Erase(p, t.l, t.d, t.r);
      return 0;
    }

    /** The descent of `__treeint_rb_insert`: the parent to hang `a` under, unless `a` is there already. */
    method Descend(a: int) returns (present: bool, parent: Node?<Color>, ghost p: RPath)
      requires Valid()
      ensures present <==> a in Model()
      ensures !present ==> tree == Plug(p, Leaf) && Linked(root, p, Leaf) && Between(p, a) && parent == Under(p, null)
      ensures !present && parent != null ==> (if a < parent.value then p.L? else p.R?)
    {
      var n := root.node;
      ghost var t := tree;
      parent, p := null, Top;
      while n != null
        invariant tree == Plug(p, t) && Linked(root, p, t) && At(t) == n && Between(p, a)
        invariant parent == Under(p, null)
        invariant parent != null ==> (if a < parent.value then p.L? else p.R?)
        decreases t
      {
        parent := n;
        if a == n.value {
          FoundKey(p, t);
          return true, parent, p;
        }
        DescendBetween(p, t, a);
        if a < n.value {
          LinkedFill(root, L(p, t.n, t.d, t.r), t.l);
          p, t := L(p, t.n, t.d, t.r), t.l;
          n := n.left;
        } else {
          LinkedFill(root, R(t.l, t.n, t.d, p), t.r);
          p, t := R(t.l, t.n, t.d, p), t.r;
          n := n.right;
        }
      }
      HoleMissing(p, a);
      return false, parent, p;
    }

    /** `treeint_rb_insert` */
    method Insert(a: int) returns (code: int)
      requires Valid()
      modifies this, root, Nodes(tree)
      ensures Valid() && fresh(Nodes(tree) - old(Nodes(tree)))
      ensures IntSet.Code(code) == IntSet.Answers(old(Model()), IntSet.Insert(a))
      ensures Model() == IntSet.After(old(Model()), IntSet.Insert(a))
    {
      NodesExist(tree);
      ghost var p;
      var present, parent;
      present, parent, p := Descend(a);
      if present {
        return -1;
      }
      PathNodesExist(p);
      var i := new Node(a, Red);
      tree := AddNode(i, parent, root, p);
      return 0;
    }
  }

  /** `rb_link_node` */
  method LinkNode(node: RNode, parent: Node?<Color>, root: RRoot, ghost p: RPath)
    requires Linked(root, p, Leaf) && DistinctPath(p) && node !in PathNodes(p) && parent == Under(p, null)
    requires parent != null ==> (if node.value < parent.value then p.L? else p.R?)
    requires node.data == Red
    modifies root, node, PathNodes(p)
    ensures Linked(root, p, Bin(Leaf, node, Red, Leaf))
  {
    node.parent := parent;
    node.left, node.right := null, null;
    if parent == null {
      root.node := node;
    } else if node.value < parent.value {
      parent.left := node;
    } else {
      parent.right := node;
    }
  }

  /** The new entry is hung into its hole and the rules are restored. */
  method AddNode(node: RNode, parent: Node?<Color>, root: RRoot, ghost p: RPath) returns (ghost tree: RTree)
    requires Holds(root, Plug(p, Leaf)) && Linked(root, p, Leaf) && node !in Nodes(Plug(p, Leaf))
    requires Between(p, node.value) && parent == Under(p, null) && node.data == Red
    requires parent != null ==> (if node.value < parent.value then p.L? else p.R?)
    modifies root, node, Nodes(Plug(p, Leaf))
    ensures Holds(root, tree) && Nodes(tree) == Nodes(Plug(p, Leaf)) + {node}
    ensures Keys(tree) == Keys(Plug(p, Leaf)) + {node.value}
  {
    ghost var t := Bin(Leaf, node, Red, Leaf);
    tree := InsertFix(p, t);
    InsertedHolds(p, node, BlackHeight(Plug(p, Leaf)));
    SearchSeparate(p, Leaf);
    PlugNodes(p, Leaf);
    PlugNodes(p, t);
    SameNodes(p, t);
    SameNodes(Top, tree);
    LinkNode(node, parent, root, p);
    RbInsert.InsertColor(node, root, p, t);
  }
}
