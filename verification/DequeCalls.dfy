/** What `push`, `take` and `steal` do for their caller, from the call to the return, whatever the other
    threads do meanwhile. */
module DequeCalls {
  import opened Options
  import opened Deque
  import opened DequeSafe
  import opened DequeRuns
  import opened Traces

  /** What the deque holds, oldest first. */
  ghost function Rest(s: State): seq<Item> {
    BooksOf(s).rest
  }

  /** The answer given last. */
  function Last(s: State): Answer {
    if s.out == [] then Abort else s.out[|s.out| - 1]
  }

  lemma {:induction false} PushedGrows(s: State, step: Step)
    ensures |s.pushed| <= |Next(s, step).pushed| && s.top <= Next(s, step).top
  {
  }

  lemma {:induction false} SameThieves(s: State, step: Step)
    ensures |Next(s, step).thieves| == |s.thieves|
  {
  }

  lemma {:induction false} Keeps(s: State, s': State, step: Step)
    requires Core(s) && s.pushed != [] && s' == Next(s, step)
    ensures Core(s') && s'.pushed != [] && s.top <= s'.top && |s'.thieves| == |s.thieves|
  {
    StepCore(s, step);
    PushedGrows(s, step);
    SameThieves(s, step);
  }

  lemma {:induction false} TraceInv(s: State, more: seq<Step>, tr: seq<State>, c: nat)
    requires Core(s) && s.pushed != [] && Trace(Next, s, more, tr) && c <= |more|
    ensures Core(tr[c]) && tr[c].pushed != [] && s.top <= tr[c].top && |tr[c].thieves| == |s.thieves|
  {
    if c > 0 {
      TraceInv(s, more, tr, c - 1);
      assert Follows(Next, tr, more, c - 1);
      Keeps(tr[c - 1], tr[c], more[c - 1]);
    }
  }

  // ----- the owner

  /** The owner makes a call with `start` in state `s`; the run goes on through `tr`, and up to state `c` of it the
      call has not returned. */
  ghost predicate Within(s: State, start: Step, more: seq<Step>, tr: seq<State>, c: nat) {
    && s.owner.Idle? && Trace(Next, Next(s, start), more, tr) && c <= |more|
    && forall b :: 0 <= b < c ==> !tr[b].owner.Idle?
  }

  /** It returns with the last of these states. */
  ghost predicate Returns(s: State, start: Step, more: seq<Step>, tr: seq<State>) {
    Within(s, start, more, tr, |more|) && tr[|more|].owner.Idle?
  }

  /** While the owner is in a call, the steps of thieves leave its side alone. */
  lemma {:induction false} ThiefLeaves(s: State, step: Step)
    requires !s.owner.Idle? && !step.OwnerMove?
    ensures var r := Next(s, step);
      r.owner == s.owner && r.log == s.log && r.pushed == s.pushed && r.bottom == s.bottom && s.top <= r.top
  {
  }

  // ----- take

  /** In `take` of index `b`. */
  ghost predicate Taking(s: State, r: State, b: nat) {
    && r.log == s.log && r.pushed == s.pushed && s.top <= r.top
    && match r.owner
       case TakeLoadArray(i) => i == b
       case TakeStoreBottom(i, _) => i == b
       case TakeLoadTop(i, _) => i == b
       case TakeLoadSlot(i, _, t) => i == b && s.top <= t
       case TakeCas(i, t, _) => i == b && s.top <= t
       case TakeRestore(i, x) => i == b && (x.Got? ==> s.top <= b && b in s.log && x.slot == Some(s.log[b]))
       case _ => false
  }

  /** `take` of index `b` has just answered `x`. */
  ghost predicate Taken(s: State, r: State, b: nat, x: Answer) {
    && r.owner.Idle? && r.log == s.log && r.pushed == s.pushed
    && match x
       case Got(y) => s.top <= b && b in s.log && y == Some(s.log[b])
       case Empty => r.top == r.bottom == b + 1
       case Abort => false
  }

  lemma {:induction false} TakingStep(s: State, r: State, b: nat)
    requires Core(r) && Taking(s, r, b)
    ensures var r' := Next(r, OwnerMove);
      if r'.owner.Idle? then r'.out == r.out + [Last(r')] && Taken(s, r', b, Last(r'))
      else Taking(s, r', b) && r'.out == r.out
  {
    if r.owner.TakeLoadSlot? && r.owner.t < b {
      assert Holds(r, r.cur, b);
    }
  }

  /** One step later the call goes on, or has just answered. */
  lemma {:induction false} TakeOn(s: State, r: State, r': State, step: Step, b: nat)
    requires Core(r) && Taking(s, r, b) && r' == Next(r, step)
    ensures if r'.owner.Idle? then r'.out == r.out + [Last(r')] && Taken(s, r', b, Last(r')) else Taking(s, r', b)
  {
    if step.OwnerMove? {
      TakingStep(s, r, b);
    } else {
      ThiefLeaves(r, step);
    }
  }

  lemma {:induction false} TakeStarts(s: State)
    requires Core(s) && s.pushed != [] && s.owner.Idle?
    ensures Core(Next(s, StartTake)) && Next(s, StartTake).pushed != [] && Taking(s, Next(s, StartTake), s.bottom - 1)
  {
    StepCore(s, StartTake);
  }

  lemma {:induction false} TakeTrack(s: State, more: seq<Step>, tr: seq<State>, c: nat)
    requires Within(s, StartTake, more, tr, c) && !tr[c].owner.Idle?
    requires s.bottom > 0 && Taking(s, tr[0], s.bottom - 1) && Core(tr[0]) && tr[0].pushed != []
    ensures Taking(s, tr[c], s.bottom - 1)
  {
    if c > 0 {
      TakeTrack(s, more, tr, c - 1);
      TraceInv(tr[0], more, tr, c - 1);
      assert Follows(Next, tr, more, c - 1);
      TakeOn(s, tr[c - 1], tr[c], more[c - 1], s.bottom - 1);
    }
  }

  lemma {:induction false} TakeEnds(s: State, more: seq<Step>, tr: seq<State>)
    requires Core(s) && s.pushed != [] && Returns(s, StartTake, more, tr)
    ensures more != [] && Core(tr[|more|])
    ensures var r := tr[|more|]; r.out == tr[|more| - 1].out + [Last(r)] && Taken(s, r, s.bottom - 1, Last(r))
  {
    TakeStarts(s);
    TraceInv(tr[0], more, tr, |more|);
    var c := |more| - 1;
    TraceInv(tr[0], more, tr, c);
    TakeTrack(s, more, tr, c);
    assert Follows(Next, tr, more, c);
    TakeOn(s, tr[c], tr[c + 1], more[c], s.bottom - 1);
  }

  /** The newest item is the one at `bottom - 1`. */
  lemma {:induction false} NewestIs(s: State)
    requires Core(s) && s.owner.Idle?
    ensures s.top < s.bottom ==> s.bottom - 1 in s.log && Rest(s) != [] && Rest(s)[|Rest(s)| - 1] == s.log[s.bottom - 1]
    ensures s.top == s.bottom ==> Rest(s) == []
  {
    if s.top < s.bottom {
      assert Holds(s, s.cur, s.bottom - 1);
    }
  }

  /** A `take` returns the item that was the newest when it was called, or answers EMPTY, and that only if the deque
      is empty when it returns. It pushes nothing. */
  lemma {:induction false} TakeAnswers(n: nat, m: nat, steps: seq<Step>, more: seq<Step>, tr: seq<State>)
    requires n >= 1 && PushedFirst(Init(n, m), steps) && Run(Init(n, m), steps).pushed != []
    requires Returns(Run(Init(n, m), steps), StartTake, more, tr)
    ensures more != [] && tr[|more|].out == tr[|more| - 1].out + [Last(tr[|more|])]
    ensures var s, r := Run(Init(n, m), steps), tr[|more|];
      && (Last(r) == Empty || (Rest(s) != [] && Last(r) == Got(Some(Rest(s)[|Rest(s)| - 1]))))
      && (Last(r) == Empty ==> Rest(r) == [])
      && r.pushed == s.pushed
  {
    var s := Run(Init(n, m), steps);
    InitOk(n, m);
    RunKeeps(Init(n, m), steps);
    TakeEnds(s, more, tr);
    NewestIs(s);
    NewestIs(tr[|more|]);
  }

  // ----- push

  /** In `push` of `w`. */
  ghost predicate Pushing(s: State, r: State, w: Item) {
    && r.pushed == s.pushed
    && match r.owner
       case PushLoadTop(x, _) => x == w
       case PushLoadArray(x, _, _) => x == w
       case PushStore(x, _, _) => x == w
       case PushPublish(x, _) => x == w
       case GrowLoadArray(x, _) => x == w
       case GrowLoadTop(x, _, _) => x == w
       case GrowLoadBottom(x, _, _, _, _) => x == w
       case GrowCopy(x, _, _, _, _, _) => x == w
       case PushReload(x, _) => x == w
       case _ => false
  }

  lemma {:induction false} PushingStep(s: State, r: State, w: Item)
    requires Core(r) && Pushing(s, r, w)
    ensures var r' := Next(r, OwnerMove);
      && r'.out == r.out
      && if r'.owner.Idle? then r'.pushed == s.pushed + [w] && Rest(r') == Rest(r) + [w] else Pushing(s, r', w)
  {
    if r.owner.PushPublish? {
      PublishBooks(r);
    }
  }

  lemma {:induction false} PushOn(s: State, r: State, r': State, step: Step, w: Item)
    requires Core(r) && Pushing(s, r, w) && r' == Next(r, step)
    ensures if r'.owner.Idle? then r'.out == r.out && r'.pushed == s.pushed + [w] && Rest(r') == Rest(r) + [w]
            else Pushing(s, r', w)
  {
    if step.OwnerMove? {
      PushingStep(s, r, w);
    } else {
      ThiefLeaves(r, step);
    }
  }

  lemma {:induction false} PushInv(r: State, r': State, step: Step)
    requires Core(r) && !r.owner.Idle? && r' == Next(r, step)
    ensures Core(r')
  {
    StepCore(r, step);
  }

  lemma {:induction false} PushTrack(s: State, more: seq<Step>, tr: seq<State>, c: nat, work: int)
    requires Core(s) && Within(s, StartPush(work), more, tr, c) && !tr[c].owner.Idle?
    ensures Core(tr[c]) && Pushing(s, tr[c], Item(work, |s.pushed|))
  {
    if c == 0 {
      StepCore(s, StartPush(work));
    } else {
      PushTrack(s, more, tr, c - 1, work);
      assert Follows(Next, tr, more, c - 1);
      PushInv(tr[c - 1], tr[c], more[c - 1]);
      PushOn(s, tr[c - 1], tr[c], more[c - 1], Item(work, |s.pushed|));
    }
  }

  /** A `push` puts what it was given, and nothing else, at the young end of the deque, with its last step. */
  lemma {:induction false} PushAdds(n: nat, m: nat, steps: seq<Step>, work: int, more: seq<Step>, tr: seq<State>)
    requires n >= 1 && PushedFirst(Init(n, m), steps)
    requires Returns(Run(Init(n, m), steps), StartPush(work), more, tr)
    ensures var s, r := Run(Init(n, m), steps), tr[|more|];
      && more != []
      && r.pushed == s.pushed + [Item(work, |s.pushed|)]
      && Rest(r) == Rest(tr[|more| - 1]) + [Item(work, |s.pushed|)] && r.out == tr[|more| - 1].out
  {
    var s := Run(Init(n, m), steps);
    InitOk(n, m);
    RunKeeps(Init(n, m), steps);
    PushEnds(s, more, tr, work);
  }

  lemma {:induction false} PushEnds(s: State, more: seq<Step>, tr: seq<State>, work: int)
    requires Core(s) && Returns(s, StartPush(work), more, tr)
    ensures var r := tr[|more|];
      && more != []
      && r.pushed == s.pushed + [Item(work, |s.pushed|)]
      && Rest(r) == Rest(tr[|more| - 1]) + [Item(work, |s.pushed|)] && r.out == tr[|more| - 1].out
  {
    assert !Next(s, StartPush(work)).owner.Idle?;
    var c := |more| - 1;
    PushTrack(s, more, tr, c, work);
    assert Follows(Next, tr, more, c);
    PushOn(s, tr[c], tr[c + 1], more[c], Item(work, |s.pushed|));
  }

  // ----- steal

  function ThiefOf(s: State, k: nat): Thief {
    if k < |s.thieves| then s.thieves[k] else Away
  }

  /** Thief `k` makes the call in state `s` and returns with the last state of `tr`. */
  ghost predicate Steals(s: State, k: nat, more: seq<Step>, tr: seq<State>) {
    && StealsUpTo(s, k, more, tr, |more|) && ThiefOf(tr[|more|], k).Away?
  }

  ghost predicate StealsUpTo(s: State, k: nat, more: seq<Step>, tr: seq<State>, c: nat) {
    && k < |s.thieves| && s.thieves[k].Away? && Trace(Next, Next(s, StartSteal(k)), more, tr) && c <= |more|
    && forall b :: 0 <= b < c ==> !ThiefOf(tr[b], k).Away?
  }

  /** The value of `top` a thief has loaded. */
  predicate Loaded(th: Thief, t: nat) {
    !th.Away? && th.t == t
  }

  lemma {:induction false} StealingStep(s: State, step: Step, k: nat)
    requires k < |s.thieves| && !s.thieves[k].Away?
    ensures var th, th' := s.thieves[k], ThiefOf(Next(s, step), k);
      && (!th'.Away? ==> th'.t == th.t)
      && (th'.Away? ==> step == ThiefMove(k))
  {
  }

  lemma {:induction false} StealStarts(s: State, k: nat)
    requires Core(s) && k < |s.thieves| && s.thieves[k].Away?
    ensures var r := Next(s, StartSteal(k)); Core(r) && r.pushed == s.pushed && |r.thieves| == |s.thieves| && Loaded(ThiefOf(r, k), s.top)
  {
    StepCore(s, StartSteal(k));
  }

  lemma {:induction false} StealTrack(s: State, k: nat, more: seq<Step>, tr: seq<State>, c: nat)
    requires Core(s) && s.pushed != [] && StealsUpTo(s, k, more, tr, c) && !ThiefOf(tr[c], k).Away?
    ensures Loaded(ThiefOf(tr[c], k), s.top) && Core(tr[c]) && k < |tr[c].thieves|
  {
    StealStarts(s, k);
    TraceInv(tr[0], more, tr, c);
    if c > 0 {
      StealTrack(s, k, more, tr, c - 1);
      assert Follows(Next, tr, more, c - 1);
      StealingStep(tr[c - 1], more[c - 1], k);
    }
  }

  /** What a thief may answer that has loaded `t` from `top`, when it goes from state `s` to `r`. */
  ghost predicate StealOk(s: State, r: State, t: nat, x: Answer) {
    match x
    case Got(y) => s.top == t && y.Some? && Rest(s) == [y.value] + Rest(r)
    case Empty => s.bottom <= s.top && r.top == s.top
    case Abort => t < s.top && r.top == s.top
  }

  lemma {:induction false} StealTakes(s: State, k: nat)
    requires Core(s) && k < |s.thieves| && s.thieves[k].StealCas? && s.thieves[k].t == s.top
    ensures var r, x := Steal(s, k), s.thieves[k].x;
      r.out == s.out + [Got(x)] && x.Some? && Rest(s) == [x.value] + Rest(r)
  {
    assert ThiefOk(s, s.thieves[k]);
    SliceHead(s.log, s.top, Limit(s));
  }

  lemma {:induction false} StealRefused(s: State, k: nat)
    requires Core(s) && k < |s.thieves|
    requires var th := s.thieves[k]; (th.StealCas? && th.t != s.top) || (th.StealLoadBottom? && th.t >= s.bottom)
    ensures var r := Steal(s, k); r.out == s.out + [Last(r)] && StealOk(s, r, s.thieves[k].t, Last(r))
  {
    assert ThiefOk(s, s.thieves[k]);
  }

  lemma {:induction false} StealAnswer(s: State, k: nat)
    requires Core(s) && k < |s.thieves| && !s.thieves[k].Away? && ThiefOf(Steal(s, k), k).Away?
    ensures var r := Steal(s, k); r.out == s.out + [Last(r)] && StealOk(s, r, s.thieves[k].t, Last(r))
  {
    if s.thieves[k].StealCas? && s.thieves[k].t == s.top {
      StealTakes(s, k);
    } else {
      StealRefused(s, k);
    }
  }

  /** A `steal` takes the oldest item off the deque with its last step, or answers EMPTY, and that only when no index
      was left between `top` and `bottom`, or ABORT, and that only if somebody moved `top` since it was called. */
  lemma {:induction false} StealAnswers(n: nat, m: nat, steps: seq<Step>, k: nat, more: seq<Step>, tr: seq<State>)
    requires n >= 1 && PushedFirst(Init(n, m), steps) && Run(Init(n, m), steps).pushed != []
    requires Steals(Run(Init(n, m), steps), k, more, tr)
    ensures more != []
    ensures var before, r := tr[|more| - 1], tr[|more|];
      && r.out == before.out + [Last(r)]
      && match Last(r)
         case Got(y) => y.Some? && Rest(before) == [y.value] + Rest(r)
         case Empty => before.bottom <= before.top && (before.owner.Idle? ==> Rest(before) == [])
         case Abort => Run(Init(n, m), steps).top < before.top
  {
    var s := Run(Init(n, m), steps);
    InitOk(n, m);
    RunKeeps(Init(n, m), steps);
    StealEnds(s, k, more, tr);
  }

  lemma {:induction false} StealEnds(s: State, k: nat, more: seq<Step>, tr: seq<State>)
    requires Core(s) && s.pushed != [] && Steals(s, k, more, tr)
    ensures more != []
    ensures var before, r := tr[|more| - 1], tr[|more|];
      && r.out == before.out + [Last(r)] && StealOk(before, r, s.top, Last(r))
      && (before.owner.Idle? && before.bottom <= before.top ==> Rest(before) == [])
  {
    assert !ThiefOf(tr[0], k).Away?;
    var c := |more| - 1;
    StealTrack(s, k, more, tr, c);
    assert Follows(Next, tr, more, c);
    StealingStep(tr[c], more[c], k);
    StealAnswer(tr[c], k);
  }

  // ----- without interruption

  function Gap(lo: nat, hi: nat): nat {
    if lo < hi then hi - lo else 0
  }

  /** The steps the owner has left in its call, if nobody else steps. */
  function OwnerLeft(s: State): nat {
    match s.owner
    case Idle => 0
    case PushLoadTop(_, _) => 9 + Gap(s.top, s.bottom)
    case PushLoadArray(_, _, _) => 8 + Gap(s.top, s.bottom)
    case GrowLoadArray(_, _) => 7 + Gap(s.top, s.bottom)
    case GrowLoadTop(_, _, _) => 6 + Gap(s.top, s.bottom)
    case GrowLoadBottom(_, _, _, _, t) => 5 + Gap(t, s.bottom)
    case GrowCopy(_, _, _, _, i, end) => 4 + Gap(i, end)
    case PushReload(_, _) => 3
    case PushStore(_, _, _) => 2
    case PushPublish(_, _) => 1
    case TakeLoadArray(_) => 6
    case TakeStoreBottom(_, _) => 5
    case TakeLoadTop(_, _) => 4
    case TakeLoadSlot(_, _, _) => 3
    case TakeCas(_, _, _) => 2
    case TakeRestore(_, _) => 1
  }

  function ThiefLeft(th: Thief): nat {
    match th
    case Away => 0
    case StealLoadBottom(_) => 4
    case StealLoadArray(_) => 3
    case StealLoadSlot(_, _) => 2
    case StealCas(_, _) => 1
  }

  lemma {:induction false} OwnerGoesOn(s: State)
    requires Core(s) && !s.owner.Idle?
    ensures OwnerLeft(Move(s)) < OwnerLeft(s)
  {
  }

  lemma {:induction false} OwnerAlone(s: State) returns (more: seq<Step>, tr: seq<State>)
    requires Core(s)
    ensures Trace(Next, s, more, tr) && |more| <= OwnerLeft(s) && forall c :: 0 <= c < |more| ==> more[c] == OwnerMove
    ensures (forall b :: 0 <= b < |more| ==> !tr[b].owner.Idle?) && tr[|more|].owner.Idle?
    decreases OwnerLeft(s)
  {
    if s.owner.Idle? {
      more, tr := [], [s];
    } else {
      OwnerGoesOn(s);
      OwnerStep(s);
      var rest, states := OwnerAlone(Move(s));
      TracePrepend(Next, s, OwnerMove, rest, states);
      more, tr := [OwnerMove] + rest, [s] + states;
    }
  }

  lemma {:induction false} ThiefGoesOn(s: State, k: nat)
    requires k < |s.thieves| && !s.thieves[k].Away?
    ensures |Steal(s, k).thieves| == |s.thieves| && ThiefLeft(Steal(s, k).thieves[k]) < ThiefLeft(s.thieves[k])
  {
  }

  lemma {:induction false} ThiefAlone(s: State, k: nat) returns (more: seq<Step>, tr: seq<State>)
    requires k < |s.thieves|
    ensures Trace(Next, s, more, tr) && |more| <= 4 && |more| <= ThiefLeft(s.thieves[k])
    ensures forall c :: 0 <= c < |more| ==> more[c] == ThiefMove(k)
    ensures (forall b :: 0 <= b < |more| ==> !ThiefOf(tr[b], k).Away?) && ThiefOf(tr[|more|], k).Away?
    decreases ThiefLeft(s.thieves[k])
  {
    if s.thieves[k].Away? {
      more, tr := [], [s];
    } else {
      ThiefGoesOn(s, k);
      var rest, states := ThiefAlone(Steal(s, k), k);
      TracePrepend(Next, s, ThiefMove(k), rest, states);
      more, tr := [ThiefMove(k)] + rest, [s] + states;
    }
  }

  /** Left alone, the owner returns from `push` and `take`, `resize` included, and a thief from `steal`. */
  lemma {:induction false} AloneReturns(n: nat, m: nat, steps: seq<Step>, start: Step) returns (more: seq<Step>, tr: seq<State>)
    requires n >= 1 && PushedFirst(Init(n, m), steps)
    requires var s := Run(Init(n, m), steps);
      match start
      case StartPush(_) => s.owner.Idle?
      case StartTake => s.owner.Idle? && s.pushed != []
      case StartSteal(k) => k < |s.thieves| && s.thieves[k].Away?
      case _ => false
    ensures if start.StartSteal? then Steals(Run(Init(n, m), steps), start.k, more, tr)
            else Returns(Run(Init(n, m), steps), start, more, tr)
    ensures forall c :: 0 <= c < |more| ==> more[c] == if start.StartSteal? then ThiefMove(start.k) else OwnerMove
  {
    var s := Run(Init(n, m), steps);
    InitOk(n, m);
    RunKeeps(Init(n, m), steps);
    StepCore(s, start);
    if start.StartSteal? {
      more, tr := ThiefAlone(Next(s, start), start.k);
    } else {
      more, tr := OwnerAlone(Next(s, start));
    }
  }

  lemma {:induction false} SoloTakeFirst(s: State)
    requires s.owner.Idle? && s.bottom > 0
    ensures var r := Move(Move(Next(s, StartTake)));
      r == s.(bottom := s.bottom - 1, owner := TakeLoadTop(s.bottom - 1, s.cur))
  {
  }

  lemma {:induction false} SoloTakeRest(s: State, b: nat)
    requires s.owner == TakeLoadTop(b, s.cur) && s.bottom == b && s.top <= b + 1
    ensures var r := Move(Move(Move(Move(s))));
      r.owner.Idle? && r.out == s.out + [if s.top <= b then Got(Read(s, s.cur, b)) else Empty]
  {
    var s1 := Move(s);
    if s.top == b {
      assert Move(Move(s1)).owner == TakeRestore(b, Got(Read(s, s.cur, b)));
    } else {
      assert s.top < b || Move(s1).owner.Idle?;
    }
  }

  /** A `take` that nobody interrupts returns the newest item if there is one, and EMPTY if there is none. */
  lemma {:induction false} SoloTakes(s: State)
    requires Core(s) && s.owner.Idle? && s.pushed != []
    ensures SoloTake(s).owner.Idle?
    ensures SoloTake(s).out == s.out + [if Rest(s) == [] then Empty else Got(Some(Rest(s)[|Rest(s)| - 1]))]
  {
    NewestIs(s);
    SoloTakeFirst(s);
    SoloTakeRest(Move(Move(Next(s, StartTake))), s.bottom - 1);
    if s.top < s.bottom {
      assert Holds(s, s.cur, s.bottom - 1);
    }
  }

  // ----- arrays that are never freed

  /** Every array is twice as long as the one before it, and the last one is in use. */
  ghost predicate Doubling(s: State) {
    && s.cur + 1 == |s.arrays| && s.arrays[0] != []
    && forall i :: 0 < i < |s.arrays| ==> |s.arrays[i]| == 2 * |s.arrays[i - 1]|
  }

  lemma {:induction false} DoublingStep(s: State, step: Step)
    requires Core(s) && Doubling(s)
    ensures Doubling(Next(s, step))
  {
    var r := Next(s, step);
    if step.OwnerMove? && s.owner.PushStore? {
      assert forall i :: 0 <= i < |s.arrays| ==> |r.arrays[i]| == |s.arrays[i]|;
    }
  }

  lemma {:induction false} RunDoubling(s: State, steps: seq<Step>)
    requires Inv(s) && Doubling(s) && PushedFirst(s, steps)
    ensures Doubling(Run(s, steps))
    decreases |steps|
  {
    if steps != [] {
      var before := steps[..|steps| - 1];
      assert forall i :: 0 <= i < |before| ==> before[..i] == steps[..i] && before[i] == steps[i];
      RunDoubling(s, before);
      RunKeeps(s, before);
      DoublingStep(Run(s, before), steps[|steps| - 1]);
    }
  }

  /** The room in the arrays before number `k`. */
  function Leaked(arrays: seq<Array>, k: nat): nat
    requires k <= |arrays|
  {
    if k == 0 then 0 else Leaked(arrays, k - 1) + |arrays[k - 1]|
  }

  lemma {:induction false} LeakedBefore(s: State, k: nat)
    requires Doubling(s) && k < |s.arrays|
    ensures Leaked(s.arrays, k) + |s.arrays[0]| == |s.arrays[k]|
  {
    if k > 0 { LeakedBefore(s, k - 1); }
  }

  /** What `resize` leaves unfreed is in every run less than the array in use. */
  lemma {:induction false} LeakBounded(n: nat, m: nat, steps: seq<Step>)
    requires n >= 1 && PushedFirst(Init(n, m), steps)
    ensures var s := Run(Init(n, m), steps);
      s.cur < |s.arrays| && Leaked(s.arrays, s.cur) < |s.arrays[s.cur]|
  {
    var s := Run(Init(n, m), steps);
    InitOk(n, m);
    RunDoubling(Init(n, m), steps);
    LeakedBefore(s, s.cur);
  }
}
