/** The red-black rules, and what insertion and erasure compute, as functions on
    tree values. RbInsert.dfy and RbErase.dfy prove that the pointer code computes them. */
module RedBlack {
  import opened LinkedTree
  import opened TreeOrder

  datatype Color = Red | Black

  type RTree = Tree<Color>
  type RPath = Path<Color>
  type RNode = Node<Color>

  ghost predicate IsRed(t: RTree) {
    t.Bin? && t.d == Red
  }

  ghost function Paint(t: RTree, c: Color): RTree {
    if t.Leaf? then t else t.(d := c)
  }

  lemma {:induction false} PaintNodes(t: RTree, c: Color)
    ensures Nodes(Paint(t, c)) == Nodes(t) && At(Paint(t, c)) == At(t)
    ensures Distinct(Paint(t, c)) <==> Distinct(t)
  {
  }

  // ----- the rules

  /** Every path from the root of `t` down to a leaf meets exactly `h` black nodes. */
  ghost predicate Blacks(t: RTree, h: int) {
    match t
    case Leaf => h == 0
    case Bin(l, _, c, r) => var k := if c == Black then h - 1 else h; Blacks(l, k) && Blacks(r, k)
  }

  ghost predicate NoRedRed(t: RTree) {
    match t
    case Leaf => true
    case Bin(l, _, c, r) => (c == Red ==> !IsRed(l) && !IsRed(r)) && NoRedRed(l) && NoRedRed(r)
  }

  ghost predicate Rules(t: RTree, h: int) {
    Blacks(t, h) && NoRedRed(t) && !IsRed(t)
  }

  /** The height a tree must have if it has one: the black nodes on its leftmost path. */
  ghost function BlackHeight(t: RTree): nat {
    match t
    case Leaf => 0
    case Bin(l, _, c, _) => BlackHeight(l) + if c == Black then 1 else 0
  }

  ghost predicate IsRedBlack(t: RTree) {
    Rules(t, BlackHeight(t))
  }

  lemma {:induction false} BlacksUnique(t: RTree, h: int)
    requires Blacks(t, h)
    ensures h == BlackHeight(t)
  {
    match t
    case Leaf =>
    case Bin(l, _, c, _) => BlacksUnique(l, if c == Black then h - 1 else h);
  }

  // ----- the rules, seen from a position

  /** A hole of black height `h` makes the whole tree one of black height `whole`. */
  ghost predicate PathBlacks(p: RPath, h: int, whole: int) {
    match p
    case Top => h == whole
    case L(up, _, c, r) => Blacks(r, h) && PathBlacks(up, if c == Black then h + 1 else h, whole)
    case R(l, _, c, up) => Blacks(l, h) && PathBlacks(up, if c == Black then h + 1 else h, whole)
  }

  /** No red node has a red child and the root is black, if the hole is red exactly when `red`. */
  ghost predicate PathNoRedRed(p: RPath, red: bool) {
    match p
    case Top => !red
    case L(up, _, c, r) => (c == Red ==> !red && !IsRed(r)) && NoRedRed(r) && PathNoRedRed(up, c == Red)
    case R(l, _, c, up) => (c == Red ==> !red && !IsRed(l)) && NoRedRed(l) && PathNoRedRed(up, c == Red)
  }

  lemma {:induction false} PlugBlacks(p: RPath, t: RTree, h: int, whole: int)
    requires Blacks(t, h) && PathBlacks(p, h, whole)
    ensures Blacks(Plug(p, t), whole)
  {
    match p
    case Top =>
    case L(up, n, c, r) => PlugBlacks(up, Bin(t, n, c, r), if c == Black then h + 1 else h, whole);
    case R(l, n, c, up) => PlugBlacks(up, Bin(l, n, c, t), if c == Black then h + 1 else h, whole);
  }

  lemma {:induction false} PluggedBlacks(p: RPath, t: RTree, whole: int) returns (h: int)
    requires Blacks(Plug(p, t), whole)
    ensures Blacks(t, h) && PathBlacks(p, h, whole)
  {
    match p
    case Top => h := whole;
    case L(up, n, c, r) =>
      h := PluggedBlacks(up, Bin(t, n, c, r), whole);
      h := if c == Black then h - 1 else h;
    case R(l, n, c, up) =>
      h := PluggedBlacks(up, Bin(l, n, c, t), whole);
      h := if c == Black then h - 1 else h;
  }

  lemma {:induction false} PlugNoRedRed(p: RPath, t: RTree)
    ensures NoRedRed(Plug(p, t)) && !IsRed(Plug(p, t)) <==> NoRedRed(t) && PathNoRedRed(p, IsRed(t))
  {
    match p
    case Top =>
    case L(up, n, c, r) => PlugNoRedRed(up, Bin(t, n, c, r));
    case R(l, n, c, up) => PlugNoRedRed(up, Bin(l, n, c, t));
  }

  // ----- insertion: `__rb_insert` on a red tree `t` hung at the position `p`

  ghost function InsertFix(p: RPath, t: RTree): RTree
    requires t.Bin?
    decreases p
  {
    match p
    case Top => Paint(t, Black)
    // the parent is a left child
    case L(L(up, g, gc, u), n, Red, s) =>
      if IsRed(u) then InsertFix(up, Bin(Bin(t, n, Black, s), g, Red, Paint(u, Black)))
      else Plug(up, Bin(t, n, gc, Bin(Paint(s, Black), g, Red, u)))
    case R(s, n, Red, L(up, g, gc, u)) =>
      if IsRed(u) then InsertFix(up, Bin(Bin(s, n, Black, t), g, Red, Paint(u, Black)))
      else Plug(up, Bin(Bin(s, n, Red, Paint(t.l, Black)), t.n, gc, Bin(Paint(t.r, Black), g, Red, u)))
    // the parent is a right child
    case R(s, n, Red, R(u, g, gc, up)) =>
      if IsRed(u) then InsertFix(up, Bin(Paint(u, Black), g, Red, Bin(s, n, Black, t)))
      else Plug(up, Bin(Bin(u, g, Red, Paint(s, Black)), n, gc, t))
    case L(R(u, g, gc, up), n, Red, s) =>
      if IsRed(u) then InsertFix(up, Bin(Paint(u, Black), g, Red, Bin(t, n, Black, s)))
      else Plug(up, Bin(Bin(u, g, Red, Paint(t.l, Black)), t.n, gc, Bin(Paint(t.r, Black), n, Red, s)))
    case _ => Plug(p, t)
  }

  lemma {:induction false} PaintInorder(t: RTree, c: Color)
    ensures Inorder(Paint(t, c)) == Inorder(t)
  {
  }

  /** A single rotation that blackens the subtree it moves across keeps the order. */
  lemma {:induction false} SingleInorder(a: RTree, x: RNode, b: RTree, y: RNode, c: RTree,
                                         i: Color, j: Color, k: Color, m: Color)
    ensures Inorder(Bin(a, x, i, Bin(Paint(b, Black), y, j, c))) == Inorder(Bin(Bin(a, x, k, b), y, m, c))
    ensures Inorder(Bin(Bin(a, x, i, Paint(b, Black)), y, j, c)) == Inorder(Bin(a, x, k, Bin(b, y, m, c)))
  {
    PaintInorder(b, Black);
    RotateInorder(a, x, b, y, c, k, m, k, m);
    RotateInorder(a, x, Paint(b, Black), y, c, k, m, i, j);
    RotateInorder(a, x, Paint(b, Black), y, c, i, j, k, m);
  }

  /** A double rotation keeps the order, whatever the colours become. */
  lemma {:induction false} DoubleInorder(a: RTree, x: RNode, b: RTree, y: RNode, c: RTree, z: RNode, d: RTree,
                                         i: Color, j: Color, k: Color)
    ensures forall e, f, g ::
      && Inorder(Bin(Bin(a, x, e, Paint(b, Black)), y, f, Bin(Paint(c, Black), z, g, d)))
         == Inorder(Bin(Bin(a, x, i, Bin(b, y, j, c)), z, k, d))
         == Inorder(Bin(a, x, i, Bin(Bin(b, y, j, c), z, k, d)))
  {
    forall e, f, g
      ensures Inorder(Bin(Bin(a, x, e, Paint(b, Black)), y, f, Bin(Paint(c, Black), z, g, d)))
           == Inorder(Bin(Bin(a, x, i, Bin(b, y, j, c)), z, k, d))
           == Inorder(Bin(a, x, i, Bin(Bin(b, y, j, c), z, k, d)))
    {
      PaintInorder(b, Black);
      PaintInorder(c, Black);
      RotateInorder(a, x, Bin(b, y, j, c), z, d, i, k, i, k);
      RotateInorder(a, x, Paint(b, Black), y, Bin(Paint(c, Black), z, g, d), e, f, i, f);
      RotateInorder(b, y, c, z, d, j, k, f, g);
    }
  }

  /** The fix-up moves nodes around but keeps their order. */
  lemma {:induction false} InsertFixInorder(p: RPath, t: RTree)
    requires t.Bin?
    ensures Inorder(InsertFix(p, t)) == Inorder(Plug(p, t))
    decreases p
  {
    match p
    case L(L(up, g, gc, u), n, Red, s) =>
      var sub := Bin(Bin(t, n, Red, s), g, gc, u);
      if IsRed(u) {
        var new_ := Bin(Bin(t, n, Black, s), g, Red, Paint(u, Black));
        InsertFixInorder(up, new_);
        SameInorder(up, sub, new_);
      } else {
        SingleInorder(t, n, s, g, u, gc, Red, Red, gc);
        SameInorder(up, sub, Bin(t, n, gc, Bin(Paint(s, Black), g, Red, u)));
      }
    case R(s, n, Red, L(up, g, gc, u)) =>
      var sub := Bin(Bin(s, n, Red, t), g, gc, u);
      if IsRed(u) {
        var new_ := Bin(Bin(s, n, Black, t), g, Red, Paint(u, Black));
        InsertFixInorder(up, new_);
        SameInorder(up, sub, new_);
      } else {
        DoubleInorder(s, n, t.l, t.n, t.r, g, u, Red, t.d, gc);
        SameInorder(up, sub, Bin(Bin(s, n, Red, Paint(t.l, Black)), t.n, gc, Bin(Paint(t.r, Black), g, Red, u)));
      }
    case R(s, n, Red, R(u, g, gc, up)) =>
      var sub := Bin(u, g, gc, Bin(s, n, Red, t));
      if IsRed(u) {
        var new_ := Bin(Paint(u, Black), g, Red, Bin(s, n, Black, t));
        InsertFixInorder(up, new_);
        SameInorder(up, sub, new_);
      } else {
        SingleInorder(u, g, s, n, t, Red, gc, gc, Red);
        SameInorder(up, sub, Bin(Bin(u, g, Red, Paint(s, Black)), n, gc, t));
      }
    case L(R(u, g, gc, up), n, Red, s) =>
      var sub := Bin(u, g, gc, Bin(t, n, Red, s));
      if IsRed(u) {
        var new_ := Bin(Paint(u, Black), g, Red, Bin(t, n, Black, s));
        InsertFixInorder(up, new_);
        SameInorder(up, sub, new_);
      } else {
        DoubleInorder(u, g, t.l, t.n, t.r, n, s, gc, t.d, Red);
        SameInorder(up, sub, Bin(Bin(u, g, Red, Paint(t.l, Black)), t.n, gc, Bin(Paint(t.r, Black), n, Red, s)));
      }
    case _ =>
  }

  /** Only the two red rules at `t` itself may be broken before the fix-up; none is after it. */
  lemma {:induction false} InsertFixRules(p: RPath, t: RTree, h: int, whole: int) returns (grown: int)
    requires IsRed(t) && NoRedRed(t) && Blacks(t, h)
    requires PathBlacks(p, h, whole) && PathNoRedRed(p, false)
    ensures Rules(InsertFix(p, t), grown) && whole <= grown <= whole + 1
    decreases p
  {
    match p
    case Top => grown := whole + 1;
    case L(L(up, g, gc, u), n, Red, s) =>
      if IsRed(u) {
        grown := InsertFixRules(up, Bin(Bin(t, n, Black, s), g, Red, Paint(u, Black)), h + 1, whole);
      } else {
        grown := PlugRules(up, Bin(t, n, gc, Bin(s, g, Red, u)), h + 1, whole);
      }
    case R(s, n, Red, L(up, g, gc, u)) =>
      if IsRed(u) {
        grown := InsertFixRules(up, Bin(Bin(s, n, Black, t), g, Red, Paint(u, Black)), h + 1, whole);
      } else {
        grown := PlugRules(up, Bin(Bin(s, n, Red, t.l), t.n, gc, Bin(t.r, g, Red, u)), h + 1, whole);
      }
    case R(s, n, Red, R(u, g, gc, up)) =>
      if IsRed(u) {
        grown := InsertFixRules(up, Bin(Paint(u, Black), g, Red, Bin(s, n, Black, t)), h + 1, whole);
      } else {
        grown := PlugRules(up, Bin(Bin(u, g, Red, s), n, gc, t), h + 1, whole);
      }
    case L(R(u, g, gc, up), n, Red, s) =>
      if IsRed(u) {
        grown := InsertFixRules(up, Bin(Paint(u, Black), g, Red, Bin(t, n, Black, s)), h + 1, whole);
      } else {
        grown := PlugRules(up, Bin(Bin(u, g, Red, t.l), t.n, gc, Bin(t.r, n, Red, s)), h + 1, whole);
      }
    case L(_, _, Black, _) => grown := PlugRules(p, t, h, whole);
    case R(_, _, Black, _) => grown := PlugRules(p, t, h, whole);
  }

  lemma {:induction false} PlugRules(p: RPath, t: RTree, h: int, whole: int) returns (same: int)
    requires NoRedRed(t) && Blacks(t, h) && PathBlacks(p, h, whole) && PathNoRedRed(p, IsRed(t))
    ensures Rules(Plug(p, t), whole) && same == whole
  {
    PlugBlacks(p, t, h, whole);
    PlugNoRedRed(p, t);
    same := whole;
  }
}
