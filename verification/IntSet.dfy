/** The set of integers both trees implement, and the answers of the `treeint` operations. */
module IntSet {
  datatype Op = Insert(a: int) | Find(a: int) | Remove(a: int)

  /** `Code` is the return value of insert and remove, `Found` says whether find returned an entry. */
  datatype Answer = Code(code: int) | Found(found: bool)

  function Answers(s: set<int>, op: Op): Answer {
    match op
    case Insert(a) => Code(if a in s then -1 else 0)
    case Find(a) => Found(a in s)
    case Remove(a) => Code(if a in s then 0 else -1)
  }

  function After(s: set<int>, op: Op): set<int> {
    match op
    case Insert(a) => s + {a}
    case Find(_) => s
    case Remove(a) => s - {a}
  }

  /** All answers of a run that starts from the set `s`. */
  function Run(s: set<int>, ops: seq<Op>): (answers: seq<Answer>)
    ensures |answers| == |ops|
    decreases |ops|
  {
    if ops == [] then [] else [Answers(s, ops[0])] + Run(After(s, ops[0]), ops[1..])
  }

  function Final(s: set<int>, ops: seq<Op>): set<int>
    decreases |ops|
  {
    if ops == [] then s else Final(After(s, ops[0]), ops[1..])
  }

  lemma {:induction false} RunSnoc(s: set<int>, ops: seq<Op>, op: Op)
    ensures Run(s, ops + [op]) == Run(s, ops) + [Answers(Final(s, ops), op)]
    ensures Final(s, ops + [op]) == After(Final(s, ops), op)
    decreases |ops|
  {
    if ops == [] {
      assert ops + [op] == [op];
      assert [op][1..] == [];
    } else {
      assert (ops + [op])[1..] == ops[1..] + [op];
      RunSnoc(After(s, ops[0]), ops[1..], op);
    }
  }

  /** Only the last insert or remove of a key decides whether the key is in the set. */
  lemma {:induction false} LastWrite(s: set<int>, ops: seq<Op>, a: int)
    ensures a in Final(s, ops) <==>
      || (a in s && forall i :: 0 <= i < |ops| ==> ops[i] != Remove(a))
      || (exists i :: 0 <= i < |ops| && ops[i] == Insert(a) && forall j :: i < j < |ops| ==> ops[j] != Remove(a))
    decreases |ops|
  {
    if ops != [] {
      var k := |ops| - 1;
      var front := ops[..k];
      assert ops == front + [ops[k]];
      RunSnoc(s, front, ops[k]);
      LastWrite(s, front, a);
      if ops[k] != Insert(a) && ops[k] != Remove(a) {
        assert forall i :: 0 <= i < k ==> front[i] == ops[i];
        if i :| 0 <= i < |front| && front[i] == Insert(a) && forall j :: i < j < |front| ==> front[j] != Remove(a) {
          assert ops[i] == Insert(a) && forall j :: i < j < |ops| ==> ops[j] != Remove(a);
        }
        if i :| 0 <= i < |ops| && ops[i] == Insert(a) && forall j :: i < j < |ops| ==> ops[j] != Remove(a) {
          assert front[i] == Insert(a) && forall j :: i < j < |front| ==> front[j] != Remove(a);
        }
      }
    }
  }
}
