/** What `rb_erase` computes, as functions on tree values, and why the rules survive it. */
module RbEraseSpec {
  import opened LinkedTree
  import opened TreeOrder
  import opened TreeSpine
  import opened RedBlack

  // ----- unlinking: `__rb_erase_augmented`

  /** A tree with a node taken out: the hole left behind, what fills it, and whether its paths are one black short. */
  datatype Splice = Splice(p: RPath, t: RTree, debt: bool)

  ghost function Unlink(p: RPath, l: RTree, d: Color, r: RTree): Splice {
    if l.Leaf? then
      if r.Bin? then Splice(p, Paint(r, d), false) else Splice(p, Leaf, d == Black)
    else if r.Leaf? then
      Splice(p, Paint(l, d), false)
    else
      var m := Min(r);
      var q := Append(Spine(Top, r), R(l, m.n, d, p));
      if m.r.Bin? then Splice(q, Paint(m.r, Black), false) else Splice(q, Leaf, m.d == Black)
  }

  // ----- rebalancing: `____rb_erase_color` on a position whose paths are one black short

  ghost function FinishLeft(up: RPath, t: RTree, n: RNode, c: Color, s: RTree): RTree
    requires s.Bin?
  {
    if IsRed(s.r) then
      Plug(up, Bin(Bin(t, n, Black, s.l), s.n, c, Paint(s.r, Black)))
    else if IsRed(s.l) then
      Plug(up, Bin(Bin(t, n, Black, s.l.l), s.l.n, c, Bin(Paint(s.l.r, Black), s.n, Black, s.r)))
    else
      Plug(up, Bin(t, n, Black, Paint(s, Red)))
  }

  ghost function FinishRight(up: RPath, s: RTree, n: RNode, c: Color, t: RTree): RTree
    requires s.Bin?
  {
    if IsRed(s.l) then
      Plug(up, Bin(Paint(s.l, Black), s.n, c, Bin(s.r, n, Black, t)))
    else if IsRed(s.r) then
      Plug(up, Bin(Bin(s.l, s.n, Black, Paint(s.r.l, Black)), s.r.n, c, Bin(s.r.r, n, Black, t)))
    else
      Plug(up, Bin(Paint(s, Red), n, Black, t))
  }

  ghost predicate NoRedChild(s: RTree) {
    s.Bin? && !IsRed(s.l) && !IsRed(s.r)
  }

  ghost function EraseFix(p: RPath, t: RTree): RTree
    decreases p
  {
    match p
    case Top => t
    case L(up, n, c, s) =>
      if s.Leaf? || (IsRed(s) && s.l.Leaf?) then Plug(p, t)
      else if IsRed(s) then FinishLeft(L(up, s.n, c, s.r), t, n, Red, Paint(s.l, Black))
      else if NoRedChild(s) && c == Black then EraseFix(up, Bin(t, n, c, Paint(s, Red)))
      else FinishLeft(up, t, n, c, s)
    case R(s, n, c, up) =>
      if s.Leaf? || (IsRed(s) && s.r.Leaf?) then Plug(p, t)
      else if IsRed(s) then FinishRight(R(s.l, s.n, c, up), Paint(s.r, Black), n, Red, t)
      else if NoRedChild(s) && c == Black then EraseFix(up, Bin(Paint(s, Red), n, c, t))
      else FinishRight(up, s, n, c, t)
  }

  /** `rb_erase`. */
  ghost function Erase(p: RPath, l: RTree, d: Color, r: RTree): RTree {
    var s := Unlink(p, l, d, r);
    if s.debt then EraseFix(s.p, s.t) else Plug(s.p, s.t)
  }

  // ----- the order

  lemma {:induction false} FinishLeftInorder(up: RPath, t: RTree, n: RNode, c: Color, s: RTree, e: Color)
    requires s.Bin?
    ensures Inorder(FinishLeft(up, t, n, c, s)) == Inorder(Plug(up, Bin(t, n, e, s)))
  {
    if IsRed(s.r) {
      PaintInorder(s.r, Black);
      RotateInorder(t, n, s.l, s.n, s.r, Black, c, e, s.d);
      SameInorder(up, Bin(t, n, e, s), Bin(Bin(t, n, Black, s.l), s.n, c, Paint(s.r, Black)));
    } else if IsRed(s.l) {
      var a, m, b := s.l.l, s.l.n, s.l.r;
      PaintInorder(b, Black);
      RotateInorder(a, m, b, s.n, s.r, Red, s.d, Red, Black);
      RotateInorder(t, n, a, m, Bin(b, s.n, Black, s.r), Black, c, e, Red);
      SameInorder(up, Bin(t, n, e, s), Bin(Bin(t, n, Black, a), m, c, Bin(Paint(b, Black), s.n, Black, s.r)));
    } else {
      PaintInorder(s, Red);
      SameInorder(up, Bin(t, n, e, s), Bin(t, n, Black, Paint(s, Red)));
    }
  }

  lemma {:induction false} FinishRightInorder(up: RPath, s: RTree, n: RNode, c: Color, t: RTree, e: Color)
    requires s.Bin?
    ensures Inorder(FinishRight(up, s, n, c, t)) == Inorder(Plug(up, Bin(s, n, e, t)))
  {
    if IsRed(s.l) {
      PaintInorder(s.l, Black);
      RotateInorder(s.l, s.n, s.r, n, t, s.d, e, c, Black);
      SameInorder(up, Bin(s, n, e, t), Bin(Paint(s.l, Black), s.n, c, Bin(s.r, n, Black, t)));
    } else if IsRed(s.r) {
      var a, m, b := s.r.l, s.r.n, s.r.r;
      PaintInorder(a, Black);
      RotateInorder(s.l, s.n, a, m, b, Black, Red, s.d, Red);
      RotateInorder(Bin(s.l, s.n, Black, a), m, b, n, t, Red, e, c, Black);
      SameInorder(up, Bin(s, n, e, t), Bin(Bin(s.l, s.n, Black, Paint(a, Black)), m, c, Bin(b, n, Black, t)));
    } else {
      PaintInorder(s, Red);
      SameInorder(up, Bin(s, n, e, t), Bin(Paint(s, Red), n, Black, t));
    }
  }

  lemma {:induction false} EraseFixInorder(p: RPath, t: RTree)
    ensures Inorder(EraseFix(p, t)) == Inorder(Plug(p, t))
    decreases p
  {
    match p
    case Top =>
    case L(up, n, c, s) =>
      if s.Leaf? || (IsRed(s) && s.l.Leaf?) {
      } else if IsRed(s) {
        PaintInorder(s.l, Black);
        FinishLeftInorder(L(up, s.n, c, s.r), t, n, Red, Paint(s.l, Black), Red);
        RotateInorder(t, n, Paint(s.l, Black), s.n, s.r, Red, c, c, Red);
        SameInorder(up, Bin(t, n, c, s), Bin(Bin(t, n, Red, Paint(s.l, Black)), s.n, c, s.r));
      } else if NoRedChild(s) && c == Black {
        PaintInorder(s, Red);
        EraseFixInorder(up, Bin(t, n, c, Paint(s, Red)));
        SameInorder(up, Bin(t, n, c, s), Bin(t, n, c, Paint(s, Red)));
      } else {
        FinishLeftInorder(up, t, n, c, s, c);
      }
    case R(s, n, c, up) =>
      if s.Leaf? || (IsRed(s) && s.r.Leaf?) {
      } else if IsRed(s) {
        PaintInorder(s.r, Black);
        FinishRightInorder(R(s.l, s.n, c, up), Paint(s.r, Black), n, Red, t, Red);
        RotateInorder(s.l, s.n, Paint(s.r, Black), n, t, Red, c, c, Red);
        SameInorder(up, Bin(s, n, c, t), Bin(s.l, s.n, c, Bin(Paint(s.r, Black), n, Red, t)));
      } else if NoRedChild(s) && c == Black {
        PaintInorder(s, Red);
        EraseFixInorder(up, Bin(Paint(s, Red), n, c, t));
        SameInorder(up, Bin(s, n, c, t), Bin(Paint(s, Red), n, c, t));
      } else {
        FinishRightInorder(up, s, n, c, t, c);
      }
  }

  /** Erasing a node takes it out of the order and leaves everything else in place. */
  lemma {:induction false} EraseInorder(p: RPath, l: RTree, d: Color, r: RTree)
    ensures Inorder(Erase(p, l, d, r)) == (Before(p) + Inorder(l)) + (Inorder(r) + After(p))
  {
    var s := Unlink(p, l, d, r);
    EraseFixInorder(s.p, s.t);
    if l.Leaf? {
      PaintInorder(r, d);
      PlugInorder(p, s.t);
    } else if r.Leaf? {
      PaintInorder(l, d);
      PlugInorder(p, s.t);
    } else {
      PaintInorder(Min(r).r, Black);
      SuccessorInorder(p, l, d, r, s.t);
    }
  }

  // ----- the rules

  lemma {:induction false} FinishLeftRules(up: RPath, t: RTree, n: RNode, c: Color, s: RTree, h: int, whole: int)
    requires s.Bin? && s.d == Black && Blacks(s, h + 1) && NoRedRed(s)
    requires Blacks(t, h) && NoRedRed(t) && !IsRed(t)
    requires PathBlacks(up, if c == Black then h + 2 else h + 1, whole) && PathNoRedRed(up, c == Red)
    requires NoRedChild(s) ==> c == Red
    ensures Rules(FinishLeft(up, t, n, c, s), whole)
  {
    var g := if c == Black then h + 2 else h + 1;
    if IsRed(s.r) {
      var _ := PlugRules(up, Bin(Bin(t, n, Black, s.l), s.n, c, Paint(s.r, Black)), g, whole);
    } else if IsRed(s.l) {
      var _ := PlugRules(up, Bin(Bin(t, n, Black, s.l.l), s.l.n, c, Bin(Paint(s.l.r, Black), s.n, Black, s.r)), g, whole);
    } else {
      RedParentWeaker(up);
      var _ := PlugRules(up, Bin(t, n, Black, Paint(s, Red)), g, whole);
    }
  }

  lemma {:induction false} FinishRightRules(up: RPath, s: RTree, n: RNode, c: Color, t: RTree, h: int, whole: int)
    requires s.Bin? && s.d == Black && Blacks(s, h + 1) && NoRedRed(s)
    requires Blacks(t, h) && NoRedRed(t) && !IsRed(t)
    requires PathBlacks(up, if c == Black then h + 2 else h + 1, whole) && PathNoRedRed(up, c == Red)
    requires NoRedChild(s) ==> c == Red
    ensures Rules(FinishRight(up, s, n, c, t), whole)
  {
    var g := if c == Black then h + 2 else h + 1;
    if IsRed(s.l) {
      var _ := PlugRules(up, Bin(Paint(s.l, Black), s.n, c, Bin(s.r, n, Black, t)), g, whole);
    } else if IsRed(s.r) {
      var _ := PlugRules(up, Bin(Bin(s.l, s.n, Black, Paint(s.r.l, Black)), s.r.n, c, Bin(s.r.r, n, Black, t)), g, whole);
    } else {
      RedParentWeaker(up);
      var _ := PlugRules(up, Bin(Paint(s, Red), n, Black, t), g, whole);
    }
  }

  lemma {:induction false} RedParentWeaker(p: RPath)
    requires PathNoRedRed(p, true)
    ensures PathNoRedRed(p, false)
  {
  }

  lemma {:induction false} BlacksNonNegative(t: RTree, h: int)
    requires Blacks(t, h)
    ensures h >= 0
    ensures h > 0 ==> t.Bin?
  {
    BlacksUnique(t, h);
  }

  /** The rebalancing loop pays the missing black node back, or makes the whole tree one black lower. */
  lemma {:induction false} EraseFixRules(p: RPath, t: RTree, h: int, whole: int) returns (kept: int)
    requires Blacks(t, h) && NoRedRed(t) && !IsRed(t)
    requires PathBlacks(p, h + 1, whole) && PathNoRedRed(p, false)
    ensures Rules(EraseFix(p, t), kept) && whole - 1 <= kept <= whole
    decreases p
  {
    BlacksUnique(t, h);
    match p
    case Top => kept := h;
    case L(up, n, c, s) =>
      BlacksNonNegative(s, h + 1);
      if IsRed(s) {
        BlacksNonNegative(s.l, h + 1);
        FinishLeftRules(L(up, s.n, c, s.r), t, n, Red, Paint(s.l, Black), h, whole);
        kept := whole;
      } else if NoRedChild(s) && c == Black {
        kept := EraseFixRules(up, Bin(t, n, c, Paint(s, Red)), h + 1, whole);
      } else {
        FinishLeftRules(up, t, n, c, s, h, whole);
        kept := whole;
      }
    case R(s, n, c, up) =>
      BlacksNonNegative(s, h + 1);
      if IsRed(s) {
        BlacksNonNegative(s.r, h + 1);
        FinishRightRules(R(s.l, s.n, c, up), Paint(s.r, Black), n, Red, t, h, whole);
        kept := whole;
      } else if NoRedChild(s) && c == Black {
        kept := EraseFixRules(up, Bin(Paint(s, Red), n, c, t), h + 1, whole);
      } else {
        FinishRightRules(up, s, n, c, t, h, whole);
        kept := whole;
      }
  }

  /** The rules look at colours, never at which node carries them. */
  lemma {:induction false} SwapNode(q: RPath, l: RTree, m: RNode, n: RNode, d: Color, p: RPath, h: int, whole: int, red: bool)
    ensures PathBlacks(Append(q, R(l, m, d, p)), h, whole) <==> PathBlacks(Append(q, R(l, n, d, p)), h, whole)
    ensures PathNoRedRed(Append(q, R(l, m, d, p)), red) <==> PathNoRedRed(Append(q, R(l, n, d, p)), red)
  {
    match q
    case Top =>
    case L(up, _, c, r) => SwapNode(up, l, m, n, d, p, if c == Black then h + 1 else h, whole, c == Red);
    case R(_, _, c, up) => SwapNode(up, l, m, n, d, p, if c == Black then h + 1 else h, whole, c == Red);
  }

  /** What is known about a position after unlinking: valid, or valid but for one missing black node. */
  ghost predicate SpliceRules(s: Splice, h: int, whole: int) {
    && Blacks(s.t, h) && NoRedRed(s.t)
    && if s.debt then !IsRed(s.t) && PathBlacks(s.p, h + 1, whole) && PathNoRedRed(s.p, false)
       else PathBlacks(s.p, h, whole) && PathNoRedRed(s.p, IsRed(s.t))
  }

  lemma {:induction false} OneChildRules(p: RPath, d: Color, x: RTree, h: int, whole: int) returns (k: int)
    requires PathBlacks(p, h, whole) && PathNoRedRed(p, d == Red)
    requires h == (if d == Black then 1 else 0) && Blacks(x, 0) && NoRedRed(x) && (d == Red ==> !IsRed(x))
    ensures x.Bin? ==> d == Black && SpliceRules(Splice(p, Paint(x, d), false), k, whole)
    ensures x.Leaf? ==> SpliceRules(Splice(p, Leaf, d == Black), k, whole)
  {
    BlacksUnique(x, 0);
    if x.Bin? {
      BlacksUnique(x.l, if x.d == Black then -1 else 0);
      k := 1;
    } else {
      k := 0;
      if d == Red {
        RedParentWeaker(p);
      }
    }
  }

  lemma {:induction false} UnlinkRules(p: RPath, l: RTree, n: RNode, d: Color, r: RTree, whole: int) returns (h: int)
    requires Rules(Plug(p, Bin(l, n, d, r)), whole)
    ensures SpliceRules(Unlink(p, l, d, r), h, whole)
  {
    var t := Bin(l, n, d, r);
    if l.Leaf? || r.Leaf? {
      var k := PluggedBlacks(p, t, whole);
      PlugNoRedRed(p, t);
      h := OneChildRules(p, d, if l.Leaf? then r else l, k, whole);
    } else {
      var q, m := Append(Spine(Top, r), R(l, n, d, p)), Min(r);
      SpinePlug(Top, r);
      AppendPlug(Spine(Top, r), R(l, n, d, p), m);
      var k := PluggedBlacks(q, m, whole);
      PlugNoRedRed(q, m);
      SwapNode(Spine(Top, r), l, m.n, n, d, p, k, whole, m.d == Red);
      h := OneChildRules(Append(Spine(Top, r), R(l, m.n, d, p)), m.d, m.r, k, whole);
    }
  }

  /** Erasing any node of a red-black tree leaves a red-black tree, at most one black lower. */
  lemma {:induction false} EraseRules(p: RPath, l: RTree, n: RNode, d: Color, r: RTree, whole: int) returns (kept: int)
    requires Rules(Plug(p, Bin(l, n, d, r)), whole)
    ensures Rules(Erase(p, l, d, r), kept) && whole - 1 <= kept <= whole
  {
    var h := UnlinkRules(p, l, n, d, r, whole);
    var s := Unlink(p, l, d, r);
    if s.debt {
      kept := EraseFixRules(s.p, s.t, h, whole);
    } else {
      kept := PlugRules(s.p, s.t, h, whole);
    }
  }
}
