/** Binary trees linked through parent pointers, the shape shared by the two
    set implementations.

    A heap tree is described by a value `Tree`, which names the node objects
    themselves, and a position inside one by a `Path`: the frames met on the
    way up to the root. `Rep` and `RepPath` tie the two to the pointers. */
module LinkedTree {

  class Node<D> {
    var left: Node?<D>
    var right: Node?<D>
    var parent: Node?<D>
    var data: D
    const value: int

    constructor (value: int, data: D)
      ensures this.value == value && this.data == data
      ensures left == null && right == null && parent == null
    {
      this.value, this.data := value, data;
      left, right, parent := null, null, null;
    }
  }

  class Root<D> {
    var node: Node?<D>

    constructor ()
      ensures node == null
    {
      node := null;
    }
  }

  datatype Tree<D> = Leaf | Bin(l: Tree<D>, n: Node<D>, d: D, r: Tree<D>)

  /** `L` is a frame whose hole is the left child of `n`, `R` one whose hole is the right child. */
  datatype Path<D> =
    | Top
    | L(up: Path<D>, n: Node<D>, d: D, r: Tree<D>)
    | R(l: Tree<D>, n: Node<D>, d: D, up: Path<D>)

  ghost function Nodes<D>(t: Tree<D>): set<Node<D>> {
    match t
    case Leaf => {}
    case Bin(l, n, _, r) => Nodes(l) + {n} + Nodes(r)
  }

  ghost function PathNodes<D>(p: Path<D>): set<Node<D>> {
    match p
    case Top => {}
    case L(up, n, _, r) => PathNodes(up) + {n} + Nodes(r)
    case R(l, n, _, up) => Nodes(l) + {n} + PathNodes(up)
  }

  /** The nodes a tree names exist already, so no call that leaves them out can change them. */
  lemma {:induction false} NodesExist<D>(t: Tree<D>)
    ensures forall o :: o in Nodes(t) ==> allocated(o)
  {
    if t.Bin? {
      NodesExist(t.l);
      NodesExist(t.r);
    }
  }

  lemma {:induction false} PathNodesExist<D>(p: Path<D>)
    ensures forall o :: o in PathNodes(p) ==> allocated(o)
  {
    match p
    case Top =>
    case L(up, _, _, r) => PathNodesExist(up); NodesExist(r);
    case R(l, _, _, up) => PathNodesExist(up); NodesExist(l);
  }

  ghost predicate Distinct<D>(t: Tree<D>) {
    match t
    case Leaf => true
    case Bin(l, n, _, r) =>
      && n !in Nodes(l) && n !in Nodes(r) && Nodes(l) !! Nodes(r)
      && Distinct(l) && Distinct(r)
  }

  ghost predicate DistinctPath<D>(p: Path<D>) {
    match p
    case Top => true
    case L(up, n, _, r) =>
      && n !in PathNodes(up) && n !in Nodes(r) && PathNodes(up) !! Nodes(r)
      && DistinctPath(up) && Distinct(r)
    case R(l, n, _, up) =>
      && n !in PathNodes(up) && n !in Nodes(l) && PathNodes(up) !! Nodes(l)
      && DistinctPath(up) && Distinct(l)
  }

  ghost function Plug<D>(p: Path<D>, t: Tree<D>): Tree<D> {
    match p
    case Top => t
    case L(up, n, d, r) => Plug(up, Bin(t, n, d, r))
    case R(l, n, d, up) => Plug(up, Bin(l, n, d, t))
  }

  /** The node a hole hangs under; `above` is the one the whole path hangs under. */
  ghost function Under<D>(p: Path<D>, above: Node?<D>): Node?<D> {
    if p.Top? then above else p.n
  }

  // ----- the pointers

  ghost predicate Rep<D>(t: Tree<D>, at: Node?<D>, parent: Node?<D>)
    reads Nodes(t)
  {
    match t
    case Leaf => at == null
    case Bin(l, n, d, r) =>
      && at == n && n.parent == parent && n.data == d
      && Rep(l, n.left, n) && Rep(r, n.right, n)
  }

  ghost predicate RepPath<D>(p: Path<D>, hole: Node?<D>, top: Node?<D>, above: Node?<D>)
    reads PathNodes(p)
  {
    match p
    case Top => hole == top
    case L(up, n, d, r) =>
      && n.left == hole && n.parent == Under(up, above) && n.data == d
      && Rep(r, n.right, n) && RepPath(up, n, top, above)
    case R(l, n, d, up) =>
      && n.right == hole && n.parent == Under(up, above) && n.data == d
      && Rep(l, n.left, n) && RepPath(up, n, top, above)
  }

  ghost function At<D>(t: Tree<D>): Node?<D> {
    if t.Leaf? then null else t.n
  }

  /** The pointers at `root` describe `t`, seen from the position `p`. */
  ghost predicate Linked<D>(root: Root<D>, p: Path<D>, t: Tree<D>)
    reads root, Nodes(t), PathNodes(p)
  {
    Rep(t, At(t), Under(p, null)) && RepPath(p, At(t), root.node, null)
  }

  /** The tree one frame up. */
  ghost function Fill<D>(p: Path<D>, t: Tree<D>): Tree<D>
    requires !p.Top?
  {
    if p.L? then Bin(t, p.n, p.d, p.r) else Bin(p.l, p.n, p.d, t)
  }

  lemma {:induction false} LinkedFill<D>(root: Root<D>, p: Path<D>, t: Tree<D>)
    requires !p.Top?
    ensures Linked(root, p, t) <==> Linked(root, p.up, Fill(p, t))
    ensures Separate(p, t) <==> Separate(p.up, Fill(p, t))
    ensures Plug(p, t) == Plug(p.up, Fill(p, t))
  {
    var at := if p.L? then p.n.left else p.n.right;
    assert Rep(t, at, p.n) ==> at == At(t);
  }

  /** Walking back to the root forgets the position and nothing else. */
  lemma {:induction false} LinkedUp<D>(root: Root<D>, p: Path<D>, t: Tree<D>)
    requires Linked(root, p, t)
    ensures Linked(root, Top, Plug(p, t))
  {
    match p
    case Top =>
    case L(up, n, d, r) => LinkedUp(root, up, Bin(t, n, d, r));
    case R(l, n, d, up) => LinkedUp(root, up, Bin(l, n, d, t));
  }

  lemma {:induction false} PlugNodes<D>(p: Path<D>, t: Tree<D>)
    ensures Nodes(Plug(p, t)) == PathNodes(p) + Nodes(t)
  {
    match p
    case Top =>
    case L(up, n, d, r) => PlugNodes(up, Bin(t, n, d, r));
    case R(l, n, d, up) => PlugNodes(up, Bin(l, n, d, t));
  }

  // ----- sharing

  /** The position `p` and the tree `t` share no node, and neither repeats one. */
  ghost predicate Separate<D>(p: Path<D>, t: Tree<D>) {
    Distinct(t) && DistinctPath(p) && PathNodes(p) !! Nodes(t)
  }

  /** Two nodes, three trees and a path that share nothing. */
  ghost predicate Apart<D>(p: Path<D>, m: Node<D>, n: Node<D>, a: Tree<D>, b: Tree<D>, c: Tree<D>) {
    && m != n && DistinctPath(p) && Distinct(a) && Distinct(b) && Distinct(c)
    && m !in PathNodes(p) && m !in Nodes(a) && m !in Nodes(b) && m !in Nodes(c)
    && n !in PathNodes(p) && n !in Nodes(a) && n !in Nodes(b) && n !in Nodes(c)
    && PathNodes(p) !! Nodes(a) && PathNodes(p) !! Nodes(b) && PathNodes(p) !! Nodes(c)
    && Nodes(a) !! Nodes(b) && Nodes(a) !! Nodes(c) && Nodes(b) !! Nodes(c)
  }

  lemma {:induction false} ApartFromLeft<D>(p: Path<D>, a: Tree<D>, m: Node<D>, d: D, b: Tree<D>, n: Node<D>, e: D, c: Tree<D>)
    requires Separate(p, Bin(Bin(a, m, d, b), n, e, c))
    ensures Apart(p, m, n, a, b, c)
  {
    assert Distinct(Bin(a, m, d, b));
  }

  lemma {:induction false} ApartFromRight<D>(p: Path<D>, a: Tree<D>, m: Node<D>, d: D, b: Tree<D>, n: Node<D>, e: D, c: Tree<D>)
    requires Separate(p, Bin(a, m, d, Bin(b, n, e, c)))
    ensures Apart(p, m, n, a, b, c)
  {
    assert Distinct(Bin(b, n, e, c));
  }

  /** `__rb_change_child`: the slot that held `old` now holds `new`. */
  method ChangeChild<D>(old_: Node<D>, new_: Node?<D>, parent: Node?<D>, root: Root<D>, ghost p: Path<D>)
    requires DistinctPath(p) && old_ !in PathNodes(p)
    requires parent == Under(p, null) && RepPath(p, old_, root.node, null)
    modifies root, PathNodes(p)
    ensures RepPath(p, new_, root.node, null)
  {
    if parent != null {
      if parent.left == old_ {
        parent.left := new_;
      } else {
        parent.right := new_;
      }
    } else {
      root.node := new_;
    }
  }

  /** Sets the parent link of a possibly missing node. */
  method Adopt<D>(tmp: Node?<D>, parent: Node<D>, ghost s: Tree<D>, ghost under: Node?<D>)
    requires Distinct(s) && Rep(s, tmp, under)
    modifies Nodes(s)
    ensures Rep(s, tmp, parent)
  {
    if tmp != null {
      tmp.parent := parent;
    }
  }
}
