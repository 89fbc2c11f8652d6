/** Exactly once: over every interleaving each pushed item is returned, claimed by a
    thread about to return it, or still in the deque, and never in two of these places. */
module DequeRuns {
  import opened Options
  import opened Deque
  import opened DequeSafe

  // ----- what a step does to the books

  datatype Entry =
    | Nothing
    | Pushed(w: Item)         // enters at the bottom
    | Claimed(x: Item, left: seq<Item>)   // taken off the bottom, to be returned later
    | Returned(x: Item)       // a claimed item is returned
    | Stolen(x: Item, left: seq<Item>)    // taken off the top and returned at once
    | Refused(r: Answer)      // Empty or Abort

  ghost predicate Allowed(b: Books, e: Entry) {
    match e
    case Nothing => true
    case Pushed(_) => true
    case Claimed(x, left) => b.flying == [] && b.rest == left + [x]
    case Returned(x) => b.flying == [x]
    case Stolen(x, left) => b.rest == [x] + left
    case Refused(r) => !r.Got?
  }

  ghost function Post(b: Books, e: Entry): Books
    requires Allowed(b, e)
  {
    match e
    case Nothing => b
    case Pushed(w) => b.(pushed := b.pushed + [w], rest := b.rest + [w])
    case Claimed(x, left) => b.(flying := [x], rest := left)
    case Returned(x) => b.(out := b.out + [Got(Some(x))], flying := [])
    case Stolen(x, left) => b.(out := b.out + [Got(Some(x))], rest := left)
    case Refused(r) => b.(out := b.out + [r])
  }

  lemma {:induction false} ItemsSnoc(out: seq<Answer>, r: Answer)
    ensures Items(out + [r]) == Items(out) + if r.Got? && r.slot.Some? then [r.slot.value] else []
    ensures NoGarbage(out + [r]) <==> NoGarbage(out) && (r.Got? ==> r.slot.Some?)
  {
    assert (out + [r])[..|out|] == out;
    if NoGarbage(out + [r]) {
      assert forall i :: 0 <= i < |out| ==> out[i] == (out + [r])[i];
    }
  }

  lemma {:induction false} PostConserved(b: Books, e: Entry)
    requires Allowed(b, e) && Conserved(b)
    ensures Conserved(Post(b, e))
  {
    match e
    case Returned(x) => ReturnConserved(b, x);
    case Stolen(x, left) => StealConserved(b, x, left);
    case Refused(r) =>
      ItemsSnoc(b.out, r);
      assert Items(b.out + [r]) == Items(b.out);
    case _ =>
  }

  lemma {:induction false} ReturnConserved(b: Books, x: Item)
    requires b.flying == [x] && Conserved(b)
    ensures Conserved(Post(b, Returned(x)))
  {
    ItemsSnoc(b.out, Got(Some(x)));
  }

  lemma {:induction false} StealConserved(b: Books, x: Item, left: seq<Item>)
    requires b.rest == [x] + left && Conserved(b)
    ensures Conserved(Post(b, Stolen(x, left)))
  {
    ItemsSnoc(b.out, Got(Some(x)));
  }

  lemma {:induction false} SliceHead(log: map<nat, Item>, lo: nat, hi: nat)
    requires lo < hi && lo in log
    ensures Slice(log, lo, hi) == [log[lo]] + Slice(log, lo + 1, hi)
  {
    if lo + 1 < hi {
      SliceHead(log, lo, hi - 1);
    }
  }

  lemma {:induction false} SliceSame(log: map<nat, Item>, log': map<nat, Item>, lo: nat, hi: nat)
    requires forall i :: lo <= i < hi ==> i in log && i in log' && log[i] == log'[i]
    ensures Slice(log, lo, hi) == Slice(log', lo, hi)
  {
    if lo < hi {
      SliceSame(log, log', lo, hi - 1);
    }
  }

  lemma {:induction false} PublishBooks(s: State)
    requires Core(s) && s.owner.PushPublish?
    ensures BooksOf(Move(s)) == Post(BooksOf(s), Pushed(s.owner.w))
  {
    var b, w := s.owner.b, s.owner.w;
    SliceSame(s.log, s.log[b := w], s.top, b);
    assert Slice(s.log[b := w], s.top, b + 1) == Slice(s.log[b := w], s.top, b) + [w];
  }

  lemma {:induction false} ClaimBooks(s: State) returns (e: Entry)
    requires Core(s) && ((s.owner.TakeLoadTop? && s.top < s.owner.b) || (s.owner.TakeCas? && s.top == s.owner.b))
    ensures Allowed(BooksOf(s), e) && BooksOf(Move(s)) == Post(BooksOf(s), e)
  {
    var b := s.owner.b;
    assert Holds(s, s.cur, b);
    e := Claimed(s.log[b], Slice(s.log, s.top, b));
  }

  lemma {:induction false} OwnerBooks(s: State) returns (e: Entry)
    requires Core(s)
    ensures Allowed(BooksOf(s), e) && BooksOf(Move(s)) == Post(BooksOf(s), e)
  {
    var o := s.owner;
    if o.PushPublish? {
      PublishBooks(s);
      e := Pushed(o.w);
    } else if (o.TakeLoadTop? && s.top < o.b) || (o.TakeCas? && s.top == o.b) {
      e := ClaimBooks(s);
    } else if o.TakeLoadSlot? && o.t < o.b {
      assert Holds(s, s.cur, o.b);
      e := Returned(s.log[o.b]);
    } else if o.TakeRestore? {
      e := if o.r.Got? then Returned(o.r.slot.value) else Refused(o.r);
    } else {
      e := Nothing;
    }
  }

  lemma {:induction false} ThiefBooks(s: State, k: nat) returns (e: Entry)
    requires Core(s) && k < |s.thieves|
    ensures Allowed(BooksOf(s), e) && BooksOf(Steal(s, k)) == Post(BooksOf(s), e)
  {
    var th := s.thieves[k];
    assert ThiefOk(s, th);
    if th.StealCas? && th.t == s.top {
      SliceHead(s.log, s.top, Limit(s));
      e := Stolen(s.log[s.top], Slice(s.log, s.top + 1, Limit(s)));
    } else if th.StealCas? {
      e := Refused(Abort);
    } else if th.StealLoadBottom? && th.t >= s.bottom {
      e := Refused(Empty);
    } else {
      e := Nothing;
    }
  }

  // ----- every run

  lemma {:induction false} StepBooks(s: State, step: Step) returns (e: Entry)
    requires Core(s)
    ensures Allowed(BooksOf(s), e) && BooksOf(Next(s, step)) == Post(BooksOf(s), e)
  {
    match step
    case StartPush(_) => e := Nothing;
    case StartTake => e := Nothing;
    case OwnerMove => e := OwnerBooks(s);
    case StartSteal(_) => e := Nothing;
    case ThiefMove(k) =>
      if k < |s.thieves| { e := ThiefBooks(s, k); } else { e := Nothing; }
  }

  lemma {:induction false} StepCore(s: State, step: Step)
    requires Core(s) && (step.StartTake? && s.owner.Idle? ==> s.pushed != [])
    ensures Core(Next(s, step))
  {
    match step
    case StartPush(_) => StartStep(s, step);
    case StartTake => StartStep(s, step);
    case OwnerMove => OwnerStep(s);
    case StartSteal(k) => StartStealStep(s, k);
    case ThiefMove(k) => ThiefStep(s, k);
  }

  lemma {:induction false} StepKeeps(s: State, step: Step)
    requires Inv(s) && (step.StartTake? && s.owner.Idle? ==> s.pushed != [])
    ensures Inv(Next(s, step))
  {
    StepCore(s, step);
    var e := StepBooks(s, step);
    PostConserved(BooksOf(s), e);
  }

  /** No `take` begins before something has been pushed. */
  ghost predicate PushedFirst(s: State, steps: seq<Step>) {
    forall i :: 0 <= i < |steps| && steps[i].StartTake? && Run(s, steps[..i]).owner.Idle?
                ==> Run(s, steps[..i]).pushed != []
  }

  lemma {:induction false} RunKeeps(s: State, steps: seq<Step>)
    requires Inv(s) && PushedFirst(s, steps)
    ensures Inv(Run(s, steps))
    decreases |steps|
  {
    if steps != [] {
      var before := steps[..|steps| - 1];
      assert forall i :: 0 <= i < |before| ==> before[..i] == steps[..i] && before[i] == steps[i];
      RunKeeps(s, before);
      StepKeeps(Run(s, before), steps[|steps| - 1]);
    }
  }

  /** Items that carry their position as tag are all different. */
  lemma {:induction false} SubsetDistinct(part: seq<Item>, all: seq<Item>, i: nat, j: nat)
    requires i < j < |part| && multiset(part) <= multiset(all)
    requires forall k :: 0 <= k < |all| ==> all[k].tag == k
    ensures part[i] != part[j]
  {
    if part[i] == part[j] {
      var x := part[i];
      assert part == part[..j] + [x] + part[j + 1..];
      assert x in part[..j] by { assert part[..j][i] == x; }
      assert multiset(part)[x] >= 2;
      AtMostOnce(all, x);
      assert false;
    }
  }

  lemma {:induction false} AtMostOnce(all: seq<Item>, x: Item)
    requires forall k :: 0 <= k < |all| ==> all[k].tag == k
    ensures multiset(all)[x] <= 1
    ensures x.tag >= |all| ==> multiset(all)[x] == 0
  {
    if all != [] {
      var front := all[..|all| - 1];
      assert all == front + [all[|all| - 1]];
      AtMostOnce(front, x);
    }
  }

  /** Over every interleaving of one owner and any number of thieves, from an empty deque of any
      capacity: nothing but pushed items is returned, none is returned twice, and what was pushed
      and not returned is exactly what a thread has claimed or what the deque still holds. */
  lemma {:induction false} ExactlyOnce(n: nat, m: nat, steps: seq<Step>)
    requires n >= 1 && PushedFirst(Init(n, m), steps)
    ensures var s := Run(Init(n, m), steps);
      && NoGarbage(s.out)
      && (forall i, j :: 0 <= i < j < |Items(s.out)| ==> Items(s.out)[i] != Items(s.out)[j])
      && multiset(s.pushed)
         == multiset(Items(s.out)) + multiset(InFlight(s)) + multiset(Slice(s.log, s.top, Limit(s)))
      && (s.owner.Idle? ==> multiset(s.pushed) == multiset(Items(s.out)) + multiset(Slice(s.log, s.top, s.bottom)))
  {
    var s := Run(Init(n, m), steps);
    InitOk(n, m);
    RunKeeps(Init(n, m), steps);
    assert Total(BooksOf(s)) == multiset(Items(s.out)) + multiset(InFlight(s)) + multiset(Slice(s.log, s.top, Limit(s)));
    assert multiset(Items(s.out)) <= multiset(s.pushed);
    forall i, j | 0 <= i < j < |Items(s.out)| ensures Items(s.out)[i] != Items(s.out)[j] {
      SubsetDistinct(Items(s.out), s.pushed, i, j);
    }
  }

  // ----- a take before the first push

  /** A `take` that nobody interrupts. The steps after its return change nothing. */
  function SoloTake(s: State): State {
    Move(Move(Move(Move(Move(Move(Next(s, StartTake)))))))
  }

  /** Such a `take` returns only what was pushed exactly if something was: on a fresh deque
      `bottom - 1` wraps, the deque looks non-empty and what lies in an unwritten slot is returned. */
  lemma {:induction false} TakeNeedsPush(s: State)
    requires Inv(s) && s.owner.Idle?
    ensures NoGarbage(SoloTake(s).out) && multiset(Items(SoloTake(s).out)) <= multiset(SoloTake(s).pushed)
            <==> s.pushed != []
  {
    if s.pushed != [] {
      SoloKeeps(s);
    } else {
      SoloWraps(s);
    }
  }

  lemma {:induction false} SoloKeeps(s: State)
    requires Inv(s) && s.owner.Idle? && s.pushed != []
    ensures NoGarbage(SoloTake(s).out) && multiset(Items(SoloTake(s).out)) <= multiset(SoloTake(s).pushed)
  {
    var s1 := Next(s, StartTake);
    StepKeeps(s, StartTake);
    StepKeeps(s1, OwnerMove);
    var s3 := Move(Move(s1));
    StepKeeps(Move(s1), OwnerMove);
    StepKeeps(s3, OwnerMove);
    StepKeeps(Move(s3), OwnerMove);
    var s5 := Move(Move(s3));
    StepKeeps(s5, OwnerMove);
    StepKeeps(Move(s5), OwnerMove);
    assert SoloTake(s) == Move(Move(s5));
  }

  lemma {:induction false} SoloRun(s: State)
    requires s.owner.Idle? && s.bottom == 0 == s.top
    ensures SoloTake(s).out == s.out + [Got(Read(s, s.cur, WORD - 1))] && SoloTake(s).pushed == s.pushed
  {
    var s3 := Move(Move(Next(s, StartTake)));
    assert s3.owner == TakeLoadTop(WORD - 1, s.cur) && s3.top == 0;
    var s5 := Move(Move(s3));
    assert s5.owner.Idle?;
    assert SoloTake(s) == s5;
  }

  lemma {:induction false} SoloWraps(s: State)
    requires Inv(s) && s.owner.Idle? && s.pushed == []
    ensures !(NoGarbage(SoloTake(s).out) && multiset(Items(SoloTake(s).out)) <= multiset(SoloTake(s).pushed))
  {
    var x := Read(s, s.cur, WORD - 1);
    SoloRun(s);
    ItemsSnoc(s.out, Got(x));
    if x.Some? {
      assert x.value in multiset(Items(SoloTake(s).out));
    }
  }
}
