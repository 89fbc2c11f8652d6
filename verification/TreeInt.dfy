/** `treeint.c`: the same operations run on either tree. */
module TreeInt {
  import opened LinkedTree
  import opened IntSet
  import RbSet
  import StSet

  function Key(op: Op): int {
    op.a
  }

  /** The keys of a run are ints, and any two of them have a difference that is one. */
  ghost predicate KeysFit(ops: seq<Op>) {
    forall i, j :: 0 <= i < |ops| && 0 <= j < |ops| ==>
      StSet.IsInt(Key(ops[i])) && StSet.IsInt(Key(ops[i]) - Key(ops[j]))
  }

  /** Whatever has been inserted is in reach of the next key. */
  lemma {:induction false} NextInReach(ops: seq<Op>, i: nat)
    requires i < |ops| && KeysFit(ops)
    ensures StSet.InReach(Final({}, ops[..i]), Key(ops[i]))
  {
    var s := Final({}, ops[..i]);
    forall k | k in s ensures StSet.IsInt(k) && StSet.IsInt(k - Key(ops[i])) {
      LastWrite({}, ops[..i], k);
      var j :| 0 <= j < i && ops[..i][j] == Insert(k);
      assert Key(ops[j]) == k;
    }
  }

  method StepRb(t: RbSet.IntTree, op: Op) returns (answer: Answer)
    requires t.Valid()
    modifies t, t.root, Nodes(t.tree)
    ensures t.Valid() && fresh(Nodes(t.tree) - old(Nodes(t.tree)))
    ensures answer == Answers(old(t.Model()), op) && t.Model() == After(old(t.Model()), op)
  {
    NodesExist(t.tree);
    match op
    case Insert(a) =>
      var code := t.Insert(a);
      answer := Code(code);
    case Find(a) =>
      var n;
      ghost var steps;
      n, steps := t.Find(a);
      answer := Found(n != null);
    case Remove(a) =>
      var code := t.Remove(a);
      answer := Code(code);
  }

  method RunRb(ops: seq<Op>) returns (answers: seq<Answer>)
    ensures answers == Run({}, ops)
  {
    var t := new RbSet.IntTree();
    answers := [];
    for i := 0 to |ops|
      invariant t.Valid() && fresh(t) && fresh(t.root) && fresh(Nodes(t.tree))
      invariant t.Model() == Final({}, ops[..i]) && answers == Run({}, ops[..i])
    {
      RunSnoc({}, ops[..i], ops[i]);
      assert ops[..i + 1] == ops[..i] + [ops[i]];
      ghost var before := Nodes(t.tree);
      label Before:
      var answer := StepRb(t, ops[i]);
      forall o | o in Nodes(t.tree) ensures fresh(o) {
        assert o in before || !old@Before(allocated(o));
      }
      answers := answers + [answer];
    }
    assert ops[..|ops|] == ops;
  }

  method StepSt(t: StSet.IntTree, op: Op) returns (answer: Answer)
    requires t.Valid() && StSet.InReach(t.Model(), Key(op))
    modifies t, t.root, Nodes(t.tree)
    ensures t.Valid() && fresh(Nodes(t.tree) - old(Nodes(t.tree)))
    ensures answer == Answers(old(t.Model()), op) && t.Model() == After(old(t.Model()), op)
  {
    NodesExist(t.tree);
    match op
    case Insert(a) =>
      var code := t.Insert(a);
      answer := Code(code);
    case Find(a) =>
      var n := t.Find(a);
      answer := Found(n != null);
    case Remove(a) =>
      var code := t.Remove(a);
      answer := Code(code);
  }

  method RunSt(ops: seq<Op>) returns (answers: seq<Answer>)
    requires KeysFit(ops)
    ensures answers == Run({}, ops)
  {
    var t := new StSet.IntTree();
    answers := [];
    for i := 0 to |ops|
      invariant t.Valid() && fresh(t) && fresh(t.root) && fresh(Nodes(t.tree))
      invariant t.Model() == Final({}, ops[..i]) && answers == Run({}, ops[..i])
    {
      RunSnoc({}, ops[..i], ops[i]);
      NextInReach(ops, i);
      assert ops[..i + 1] == ops[..i] + [ops[i]];
      ghost var before := Nodes(t.tree);
      label Before:
      var answer := StepSt(t, ops[i]);
      forall o | o in Nodes(t.tree) ensures fresh(o) {
        assert o in before || !old@Before(allocated(o));
      }
      answers := answers + [answer];
    }
    assert ops[..|ops|] == ops;
  }

  /** No run tells the two trees apart, or from the mathematical set. */
  method RunBoth(ops: seq<Op>) returns (rb: seq<Answer>, st: seq<Answer>)
    requires KeysFit(ops)
    ensures rb == st == Run({}, ops) && |rb| == |ops|
  {
    rb := RunRb(ops);
    st := RunSt(ops);
  }
}
