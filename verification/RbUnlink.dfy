/** `__rb_erase_augmented` on the pointers: takes a node out and says where rebalancing must start. */
module RbUnlink {
  import opened LinkedTree
  import opened TreeOrder
  import opened TreeSpine
  import opened RedBlack
  import opened RbSteps
  import opened RbEraseSpec

  /** The loop that walks left below the right child. */
  method FindSuccessor(child: RNode, ghost r: RTree)
    returns (parent: RNode, successor: RNode)
    requires r.Bin? && Rep(r, child.left, child)
    ensures var q, m := Spine(Top, r), Min(r);
      && parent == Under(q, child) && m.n == successor
      && RepPath(q, successor, child.left, child) && Rep(m, successor, parent)
  {
    ghost var q, m := Top, r;
    parent, successor := child, child.left;
    var tmp := successor.left;
    while tmp != null
      invariant m.Bin? && m.n == successor && tmp == successor.left && parent == Under(q, child)
      invariant RepPath(q, successor, child.left, child) && Rep(m, successor, parent)
      invariant Spine(q, m) == Spine(Top, r) && Min(m) == Min(r)
      decreases m
    {
      q, m := L(q, m.n, m.d, m.r), m.l;
      parent := successor;
      successor := tmp;
      tmp := tmp.left;
    }
  }

  /** Case 3 cuts the successor out of its place and puts the right child below it. */
  method Detach(child: RNode, parent: RNode, successor: RNode, child2: Node?<Color>,
                ghost q: RPath, ghost m: RTree, ghost x: RTree)
    requires m.Bin? && m.n == successor && m.l.Leaf? && child != successor
    requires DistinctPath(q) && child !in PathNodes(q) && child !in Nodes(m.r) && child !in Nodes(x)
    requires successor !in PathNodes(q) && successor !in Nodes(m.r) && successor !in Nodes(x)
    requires PathNodes(q) !! Nodes(m.r) && PathNodes(q) !! Nodes(x) && (q.Top? || q.L?)
    requires parent == Under(q, child) && child2 == successor.right && Rep(x, child.right, child)
    requires RepPath(q, successor, child.left, child) && Rep(m, successor, parent)
    modifies {child, parent, successor}
    ensures child.data == old(child.data) && child.parent == successor && successor.right == child
    ensures successor.data == old(successor.data)
    ensures RepPath(q, child2, child.left, child) && Rep(x, child.right, child)
    ensures Rep(m.r, child2, successor)
  {
    parent.left := child2;
    successor.right := child;
    child.parent := successor;
  }

  /** `successor` takes over the left subtree of `node` and the link from above. */
  method MoveUp(node: RNode, successor: RNode, root: RRoot, ghost p: RPath, ghost l: RTree)
    requires Distinct(l) && DistinctPath(p) && successor != node
    requires node !in PathNodes(p) && node !in Nodes(l) && successor !in PathNodes(p) && successor !in Nodes(l)
    requires PathNodes(p) !! Nodes(l)
    requires Rep(l, node.left, node) && node.parent == Under(p, null) && RepPath(p, node, root.node, null)
    modifies root, successor`left, Nodes(l), PathNodes(p)
    ensures Rep(l, successor.left, successor) && RepPath(p, successor, root.node, null)
  {
    NodesExist(l); PathNodesExist(p);
    var tmp := node.left;
    successor.left := tmp;
    Adopt(tmp, successor, l, node);
    ChangeChild(node, successor, node.parent, root, p);
  }

  /** Below the right link of `successor` that changes nothing: there `q` leads from `top` down to `hole`, where `x` hangs. */
  method MoveUpAbove(node: RNode, successor: RNode, root: RRoot, ghost p: RPath, ghost l: RTree,
                     ghost q: RPath, ghost hole: Node?<Color>, ghost top: Node?<Color>, ghost x: RTree)
    requires Parts(p, l, node, q, successor, x)
    requires Rep(l, node.left, node) && node.parent == Under(p, null) && RepPath(p, node, root.node, null)
    requires RepPath(q, hole, top, successor) && Rep(x, hole, successor)
    modifies root, successor`left, Nodes(l), PathNodes(p)
    ensures Rep(l, successor.left, successor) && RepPath(p, successor, root.node, null)
    ensures RepPath(q, hole, top, successor) && Rep(x, hole, successor)
  {
    PathNodesExist(q); NodesExist(x);
    MoveUp(node, successor, root, p, l);
  }

  /** `successor` takes over parent and colour, which completes the path from `child2` to the root. */
  method Inherit(node: RNode, successor: RNode, child2: Node?<Color>, root: RRoot,
                 ghost p: RPath, ghost l: RTree, ghost d: Color, ghost q: RPath)
    requires successor != node && successor !in PathNodes(p) && successor !in PathNodes(q) && successor !in Nodes(l)
    requires RepPath(q, child2, successor.right, successor) && Rep(l, successor.left, successor)
    requires node.data == d && node.parent == Under(p, null) && RepPath(p, successor, root.node, null)
    modifies successor`parent, successor`data
    ensures RepPath(Append(q, R(l, successor, d, p)), child2, root.node, null)
    ensures Under(Append(q, R(l, successor, d, p)), null) == Under(q, successor)
  {
    successor.parent, successor.data := node.parent, node.data;
    AppendLinked(q, R(l, successor, d, p), child2, successor.right, root.node, null);
  }

  /** The child of `successor` turns black below `parent`, and `successor` takes its seat. */
  method Seat(node: RNode, successor: RNode, parent: RNode, child2: Node?<Color>, root: RRoot,
              ghost p: RPath, ghost l: RTree, ghost d: Color, ghost q: RPath, ghost x: RTree)
    requires Parts(p, l, node, q, successor, x) && parent == Under(q, successor)
    requires RepPath(q, child2, successor.right, successor) && Rep(x, child2, successor)
    requires Rep(l, successor.left, successor) && RepPath(p, successor, root.node, null)
    requires node.data == d && node.parent == Under(p, null)
    modifies successor`parent, successor`data, Nodes(x)
    ensures Linked(root, Append(q, R(l, successor, d, p)), Paint(x, Black))
  {
    NodesExist(l); PathNodesExist(p); PathNodesExist(q);
    PaintNodes(x, Black);
    AdoptBlack(child2, parent, x, successor);
    NodesExist(Paint(x, Black));
    Inherit(node, successor, child2, root, p, l, d, q);
  }

  /** The common end of cases 2 and 3: `successor` takes the place, colour and left subtree of `node`. */
  method Graft(node: RNode, successor: RNode, parent: RNode, child2: Node?<Color>, root: RRoot,
               ghost p: RPath, ghost l: RTree, ghost d: Color, ghost q: RPath, ghost m: RTree)
    returns (rebalance: Node?<Color>)
    requires m.Bin? && Parts(p, l, node, q, m.n, m.r) && m.n == successor && m.d == successor.data
    requires RepPath(q, child2, successor.right, successor) && Rep(m.r, child2, successor)
    requires parent == Under(q, successor)
    requires Rep(l, node.left, node) && node.data == d
    requires node.parent == Under(p, null) && RepPath(p, node, root.node, null)
    modifies root, successor, Nodes(l), Nodes(m.r), PathNodes(p)
    ensures Linked(root, Append(q, R(l, successor, d, p)), Paint(m.r, Black))
    ensures rebalance == if m.r.Leaf? && m.d == Black then Under(Append(q, R(l, successor, d, p)), null) else null
  {
    NodesExist(m.r);
    MoveUpAbove(node, successor, root, p, l, q, child2, successor.right, m.r);
    if child2 != null {
      rebalance := null;
    } else {
      rebalance := if successor.data == Black then parent else null;
    }
    AppendUnder(q, successor, l, d, p);
    Seat(node, successor, parent, child2, root, p, l, d, q, m.r);
  }

  lemma {:induction false} AppendUnder(q: RPath, n: RNode, l: RTree, d: Color, p: RPath)
    ensures Under(Append(q, R(l, n, d, p)), null) == Under(q, n)
  {
  }

  /** Case 1: at most one child, which takes the place and colour of `node`. */
  method ReplaceByChild(node: RNode, child: Node?<Color>, root: RRoot,
                        ghost p: RPath, ghost x: RTree, ghost d: Color)
    requires DistinctPath(p) && Distinct(x) && node !in PathNodes(p) && node !in Nodes(x) && PathNodes(p) !! Nodes(x)
    requires Rep(x, child, node) && node.data == d
    requires node.parent == Under(p, null) && RepPath(p, node, root.node, null)
    modifies root, Nodes(x), PathNodes(p)
    ensures Linked(root, p, Paint(x, d))
  {
    NodesExist(x); PathNodesExist(p);
    PaintNodes(x, d);
    ChangeChild(node, child, node.parent, root, p);
    if child != null {
      child.parent, child.data := node.parent, node.data;
    }
  }

  /** Case 3 up to the graft: finds the successor and detaches it. */
  method TakeSuccessor(node: RNode, child: RNode, ghost r: RTree)
    returns (successor: RNode, parent: RNode, child2: Node?<Color>)
    requires r.Bin? && r.l.Bin? && Distinct(r) && Rep(r, child, node)
    modifies Nodes(r)
    ensures var q, m := Spine(Top, r), Min(r);
      && m.n == successor && m.d == successor.data && parent == Under(q, successor)
      && RepPath(q, child2, successor.right, successor) && Rep(m.r, child2, successor)
  {
    ghost var q, m := Spine(Top, r.l), Min(r.l);
    SpineOfLeft(r);
    DetachParts(r);
    NodesExist(r.r);
    parent, successor := FindSuccessor(child, r.l);
    assert m.n in Nodes(r) && (q.L? ==> q.n in Nodes(r));
    child2 := successor.right;
    Detach(child, parent, successor, child2, q, m, r.r);
    AppendLinked(q, L(Top, child, r.d, r.r), child2, child.left, child, successor);
  }

  /** Cases 2 and 3: two children, and the successor of `node` takes its place. */
  method ReplaceBySuccessor(node: RNode, child: RNode, root: RRoot, ghost p: RPath, ghost l: RTree, ghost d: Color, ghost r: RTree)
    returns (rebalance: Node?<Color>)
    requires l.Bin? && r.Bin? && child == node.right
    requires Linked(root, p, Bin(l, node, d, r)) && Separate(p, Bin(l, node, d, r))
    modifies root, Nodes(l), Nodes(r), PathNodes(p)
    ensures var s := Unlink(p, l, d, r);
      Linked(root, s.p, s.t) && rebalance == if s.debt then Under(s.p, null) else null
  {
    ghost var q, m := Spine(Top, r), Min(r);
    SpineParts(p, l, node, d, r);
    NodesExist(l); NodesExist(r); PathNodesExist(p);
    assert Rep(l, node.left, node) && Rep(r, child, node);
    assert Rep(r.l, child.left, child);
    var successor, parent, child2 := child, child, child.right;
    if child.left != null {
      successor, parent, child2 := TakeSuccessor(node, child, r);
    }
    rebalance := Graft(node, successor, parent, child2, root, p, l, d, q, m);
  }

  /** `__rb_erase_augmented`: takes `node` out; `rebalance` is the node below which a black node is missing. */
  method EraseAugmented(node: RNode, root: RRoot, ghost p: RPath, ghost l: RTree, ghost d: Color, ghost r: RTree)
    returns (rebalance: Node?<Color>)
    requires Linked(root, p, Bin(l, node, d, r)) && Separate(p, Bin(l, node, d, r))
    modifies root, Nodes(l), Nodes(r), PathNodes(p)
    ensures var s := Unlink(p, l, d, r);
      Linked(root, s.p, s.t) && rebalance == if s.debt then Under(s.p, null) else null
  {
    ghost var s := Unlink(p, l, d, r);
    assert Rep(l, node.left, node) && Rep(r, node.right, node);
    var child, tmp := node.right, node.left;
    if tmp == null {
      assert s == Splice(p, Paint(r, d), r.Leaf? && d == Black);
      ReplaceByChild(node, child, root, p, r, d);
      if child != null {
        rebalance := null;
      } else {
        rebalance := if node.data == Black then node.parent else null;
      }
    } else if child == null {
      assert s == Splice(p, Paint(l, d), false);
      ReplaceByChild(node, tmp, root, p, l, d);
      rebalance := null;
    } else {
      rebalance := ReplaceBySuccessor(node, child, root, p, l, d, r);
    }
  }
}
