/** The small pointer steps that insertion and erasure share. */
module RbSteps {
  import opened LinkedTree
  import opened RedBlack

  type RRoot = Root<Color>

  /** `new_` gets the parent and colour of `old_`, and `old_` hangs below it in the given colour. */
  method Relabel(old_: RNode, new_: RNode, color: Color,
                 ghost a: RTree, ghost b: RTree, ghost c: RTree, ghost at: Node?<Color>)
    requires old_ != new_ && {old_, new_} !! Nodes(a) + Nodes(b) && Nodes(a) !! Nodes(b)
    requires Rep(a, old_.left, old_) && Rep(b, old_.right, old_)
    requires {old_, new_} !! Nodes(c) && Rep(c, at, new_)
    modifies old_`parent, old_`data, new_`parent, new_`data
    ensures new_.parent == old(old_.parent) && new_.data == old(old_.data)
    ensures Rep(Bin(a, old_, color, b), old_, new_) && Rep(c, at, new_)
  {
    NodesExist(a); NodesExist(b); NodesExist(c);
    new_.parent, new_.data := old_.parent, old_.data;
    old_.parent, old_.data := new_, color;
  }

  lemma {:induction false} ApartBelow(p: RPath, m: RNode, n: RNode, color: Color, a: RTree, b: RTree, c: RTree)
    requires Apart(p, m, n, a, b, c)
    ensures PathNodes(p) !! Nodes(Bin(a, m, color, b)) + Nodes(c)
  {
  }

  /** Redirecting the slot above leaves what hangs below `new_` alone. */
  method Relink(old_: RNode, new_: RNode, parent: Node?<Color>, root: RRoot,
                ghost p: RPath, ghost s: RTree, ghost c: RTree, ghost at: Node?<Color>)
    requires DistinctPath(p) && old_ !in PathNodes(p) && PathNodes(p) !! Nodes(s) + Nodes(c)
    requires parent == Under(p, null) && RepPath(p, old_, root.node, null)
    requires Rep(s, old_, new_) && Rep(c, at, new_)
    modifies root, PathNodes(p)
    ensures RepPath(p, new_, root.node, null) && Rep(s, old_, new_) && Rep(c, at, new_)
  {
    NodesExist(s); NodesExist(c);
    ChangeChild(old_, new_, parent, root, p);
  }

  /** `__rb_rotate_set_parents`, whichever side `old_` hangs on below `new_`. */
  method SetParents(old_: RNode, new_: RNode, root: RRoot, color: Color,
                    ghost p: RPath, ghost a: RTree, ghost b: RTree, ghost c: RTree, ghost at: Node?<Color>)
    requires Apart(p, old_, new_, a, b, c)
    requires old_.parent == Under(p, null) && RepPath(p, old_, root.node, null)
    requires Rep(a, old_.left, old_) && Rep(b, old_.right, old_) && Rep(c, at, new_)
    modifies root, old_`parent, old_`data, new_`parent, new_`data, PathNodes(p)
    ensures new_.parent == old(old_.parent) && new_.data == old(old_.data)
    ensures RepPath(p, new_, root.node, null) && Rep(Bin(a, old_, color, b), old_, new_) && Rep(c, at, new_)
  {
    PathNodesExist(p);
    ApartBelow(p, old_, new_, color, a, b, c);
    var parent := old_.parent;
    Relabel(old_, new_, color, a, b, c, at);
    Relink(old_, new_, parent, root, p, Bin(a, old_, color, b), c, at);
  }

  /** `__rb_rotate_set_parents`: `new_` takes the place and colour of `old_`, which already hangs below it. */
  method RotateSetParents(old_: RNode, new_: RNode, root: RRoot, color: Color,
                          ghost p: RPath, ghost a: RTree, ghost b: RTree, ghost c: RTree)
    requires Apart(p, old_, new_, a, b, c)
    requires old_.parent == Under(p, null) && RepPath(p, old_, root.node, null)
    requires Rep(a, old_.left, old_) && Rep(b, old_.right, old_)
    requires (new_.right == old_ && Rep(c, new_.left, new_)) || (new_.left == old_ && Rep(c, new_.right, new_))
    modifies root, old_, new_, PathNodes(p)
    ensures old(new_.right) == old_ ==> Linked(root, p, Bin(c, new_, old(old_.data), Bin(a, old_, color, b)))
    ensures old(new_.right) != old_ ==> Linked(root, p, Bin(Bin(a, old_, color, b), new_, old(old_.data), c))
  {
    ghost var at := if new_.right == old_ then new_.left else new_.right;
    SetParents(old_, new_, root, color, p, a, b, c, at);
  }

  /** `rb_set_parent_color(tmp, parent, RB_BLACK)` on a possibly missing node. */
  method AdoptBlack(tmp: Node?<Color>, parent: Node?<Color>, ghost s: RTree, ghost under: Node?<Color>)
    requires Distinct(s) && Rep(s, tmp, under)
    modifies Nodes(s)
    ensures Rep(Paint(s, Black), tmp, parent)
  {
    if tmp != null {
      tmp.parent, tmp.data := parent, Black;
    }
  }
}
