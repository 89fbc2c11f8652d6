/** The lock ring of `hw2/perf-test/main.c`: T threads on T + 1 mutexes, each taking the next mutex
    before it gives back the one it holds. */
module LockRing {
  import opened Arithmetic
  import opened Options

  datatype Phase = First | Line | Loop | Finished

  /** A thread holds mutex `i` while it lines up and in the loop, and the next one too if `both`;
      it has gone on `r` times. */
  datatype Thread = Thread(phase: Phase, i: nat, r: nat, both: bool)

  /** `owner` says who holds each mutex; `rounds` is how often each thread goes on. */
  datatype State = State(rounds: nat, owner: seq<Option<nat>>, ts: seq<Thread>)

  /** The next mutex in the ring. */
  function Succ(s: State, i: nat): nat {
    Ring(i + 1, |s.ts| + 1)
  }

  predicate Free(s: State, i: nat) {
    i < |s.owner| && s.owner[i] == None
  }

  /** The main thread lets nobody start before everybody has locked its first mutex. */
  ghost predicate AllLined(s: State) {
    forall j :: 0 <= j < |s.ts| ==> s.ts[j].phase != First
  }

  ghost predicate Enabled(s: State, k: nat) {
    && k < |s.ts|
    && var th := s.ts[k];
       match th.phase
       case First => Free(s, th.i)
       case Line => AllLined(s)
       case Loop => th.i < |s.owner| && (th.both || th.r == s.rounds || Free(s, Succ(s, th.i)))
       case Finished => false
  }

  ghost function Move(s: State, k: nat): State
    requires Enabled(s, k)
  {
    var th := s.ts[k];
    match th.phase
    case First => s.(owner := s.owner[th.i := Some(k)], ts := s.ts[k := th.(phase := Line)])
    case Line => s.(ts := s.ts[k := th.(phase := Loop)])
    case Loop =>
      if th.both then
        s.(owner := s.owner[th.i := None], ts := s.ts[k := Thread(Loop, Succ(s, th.i), th.r + 1, false)])
      else if th.r == s.rounds then
        s.(owner := s.owner[th.i := None], ts := s.ts[k := th.(phase := Finished)])
      else
        s.(owner := s.owner[Succ(s, th.i) := Some(k)], ts := s.ts[k := th.(both := true)])
    case Finished => s
  }

  ghost function Next(s: State, k: nat): State {
    if Enabled(s, k) then Move(s, k) else s
  }

  ghost function Run(s: State, steps: seq<nat>): State {
    if steps == [] then s else Next(Run(s, steps[..|steps| - 1]), steps[|steps| - 1])
  }

  function Init(n: nat, rounds: nat): State {
    State(rounds, seq(n + 1, _ => None), seq(n, k requires 0 <= k < n => Thread(First, k, 0, false)))
  }

  // ----- what every state satisfies

  /** How often thread `k` has locked another mutex. */
  function Taken(th: Thread): nat {
    if th.both then th.r + 1 else th.r
  }

  predicate Has(s: State, th: Thread, l: nat) {
    (th.phase == Line || th.phase == Loop) && (l == th.i || (th.both && l == Succ(s, th.i)))
  }

  ghost predicate ThreadOk(s: State, k: nat)
    requires k < |s.ts|
  {
    var th := s.ts[k];
    && th.i == Ring(k + th.r, |s.ts| + 1) && Taken(th) <= s.rounds
    && (th.phase == First || th.phase == Line ==> th.r == 0 && !th.both)
    && (th.phase == Finished ==> th.r == s.rounds && !th.both)
    && (th.phase == Loop || th.phase == Finished ==> AllLined(s))
  }

  /** A mutex is owned by whoever has it. */
  ghost predicate OwnerOk(s: State) {
    forall l, k :: 0 <= l < |s.owner| && 0 <= k ==>
      (s.owner[l] == Some(k) <==> k < |s.ts| && Has(s, s.ts[k], l))
  }

  /** No thread has locked more often than the one before it in the ring has unlocked, and the last
      is at most one ahead of the first. */
  ghost predicate ChainOk(s: State) {
    && (forall k :: 0 <= k < |s.ts| - 1 ==> Taken(s.ts[k]) <= s.ts[k + 1].r)
    && (|s.ts| > 0 ==> Taken(s.ts[|s.ts| - 1]) <= s.ts[0].r + 1)
  }

  ghost predicate Inv(s: State) {
    && |s.owner| == |s.ts| + 1
    && (forall k :: 0 <= k < |s.ts| ==> ThreadOk(s, k))
    && OwnerOk(s) && ChainOk(s)
  }

  lemma {:induction false} InitKeeps(n: nat, rounds: nat)
    ensures Inv(Init(n, rounds))
  {
  }

  // ----- around the ring

  /** No thread is behind one before it, and none is more than one ahead. */
  lemma {:induction false} ChainOrder(s: State, j: nat, k: nat)
    requires ChainOk(s) && j < k < |s.ts|
    ensures Taken(s.ts[j]) <= s.ts[k].r && Taken(s.ts[k]) <= s.ts[j].r + 1
  {
    ChainUp(s, j, k);
    if 0 < j { ChainUp(s, 0, j); }
    if k < |s.ts| - 1 { ChainUp(s, k, |s.ts| - 1); }
  }

  lemma {:induction false} ChainUp(s: State, j: nat, k: nat)
    requires ChainOk(s) && j < k < |s.ts|
    ensures Taken(s.ts[j]) <= s.ts[k].r
  {
    if j < k - 1 { ChainUp(s, j, k - 1); }
  }

  /** What a thread that has not finished holds, nobody else can take. */
  lemma {:induction false} HeldNotFree(s: State, j: nat)
    requires Inv(s) && j < |s.ts| && (s.ts[j].phase == Line || s.ts[j].phase == Loop)
    ensures s.ts[j].i < |s.owner| && !Free(s, s.ts[j].i)
  {
    assert ThreadOk(s, j);
    assert Has(s, s.ts[j], s.ts[j].i);
  }

  /** A thread gets the next mutex only if the one in front of it has gone on. */
  lemma {:induction false} TakeChain(s: State, k: nat)
    requires Inv(s) && k < |s.ts| && s.ts[k].phase == Loop && !s.ts[k].both && s.ts[k].r < s.rounds && Free(s, Succ(s, s.ts[k].i))
    ensures k < |s.ts| - 1 ==> s.ts[k].r + 1 <= s.ts[k + 1].r
    ensures k == |s.ts| - 1 ==> s.ts[k].r <= s.ts[0].r
  {
    var j := if k < |s.ts| - 1 then k + 1 else 0;
    assert ThreadOk(s, k) && ThreadOk(s, j);
    RingSucc(k + s.ts[k].r, |s.ts| + 1);
    if s.ts[j].phase == Line || s.ts[j].phase == Loop {
      HeldNotFree(s, j);
    }
  }

  lemma {:induction false} SuccDiffers(s: State, i: nat)
    requires |s.ts| >= 1 && i < |s.ts| + 1
    ensures Succ(s, i) != i
  {
    RingDiffers(i, i + 1, |s.ts| + 1);
  }

  lemma {:induction false} OnlyOwner(s: State, k: nat, j: nat, l: nat)
    requires Inv(s) && k < |s.ts| && j < |s.ts| && Has(s, s.ts[k], l) && Has(s, s.ts[j], l)
    ensures j == k
  {
    assert ThreadOk(s, k);
    assert s.owner[l] == Some(k);
  }

  // ----- every step keeps it

  /** A thread other than `k` has what it had. */
  ghost predicate OthersHave(s: State, s': State, k: nat) {
    |s'.ts| == |s.ts| && forall j, l :: 0 <= j < |s.ts| && j != k ==> Has(s', s'.ts[j], l) == Has(s, s.ts[j], l)
  }

  lemma {:induction false} FirstThread(s: State, k: nat, j: nat)
    requires Enabled(s, k) && j < |s.ts| && ThreadOk(s, k) && ThreadOk(s, j) && (s.ts[k].phase == First || s.ts[k].phase == Line)
    ensures ThreadOk(Move(s, k), j)
  {
  }

  lemma {:induction false} FirstOwner(s: State, k: nat)
    requires Inv(s) && Enabled(s, k) && (s.ts[k].phase == First || s.ts[k].phase == Line)
    ensures OwnerOk(Move(s, k))
  {
    assert ThreadOk(s, k);
    assert OthersHave(s, Move(s, k), k);
  }

  lemma {:induction false} FirstStep(s: State, k: nat)
    requires Inv(s) && Enabled(s, k) && (s.ts[k].phase == First || s.ts[k].phase == Line)
    ensures Inv(Move(s, k))
  {
    assert ThreadOk(s, k);
    forall j | 0 <= j < |s.ts| ensures ThreadOk(Move(s, k), j) {
      assert ThreadOk(s, j);
      FirstThread(s, k, j);
    }
    FirstOwner(s, k);
  }

  lemma {:induction false} LoopThread(s: State, k: nat, j: nat)
    requires Enabled(s, k) && j < |s.ts| && ThreadOk(s, k) && ThreadOk(s, j) && s.ts[k].phase == Loop
    requires s.ts[k].both ==> Succ(s, s.ts[k].i) == Ring(k + s.ts[k].r + 1, |s.ts| + 1)
    ensures ThreadOk(Move(s, k), j)
  {
  }

  lemma {:induction false} TakeOwner(s: State, k: nat)
    requires Inv(s) && Enabled(s, k) && s.ts[k].phase == Loop && !s.ts[k].both && s.ts[k].r < s.rounds
    ensures OwnerOk(Move(s, k))
  {
    assert ThreadOk(s, k);
    assert OthersHave(s, Move(s, k), k);
  }

  lemma {:induction false} TakeStep(s: State, k: nat)
    requires Inv(s) && Enabled(s, k) && s.ts[k].phase == Loop && !s.ts[k].both && s.ts[k].r < s.rounds
    ensures Inv(Move(s, k))
  {
    assert ThreadOk(s, k);
    TakeChain(s, k);
    TakeOwner(s, k);
    forall j | 0 <= j < |s.ts| ensures ThreadOk(Move(s, k), j) {
      assert ThreadOk(s, j);
      LoopThread(s, k, j);
    }
  }

  lemma {:induction false} ReleaseOwner(s: State, k: nat)
    requires Inv(s) && Enabled(s, k) && s.ts[k].phase == Loop && s.ts[k].both
    ensures OwnerOk(Move(s, k))
  {
    var s', i := Move(s, k), s.ts[k].i;
    SuccDiffers(s, i);
    forall j | 0 <= j < |s.ts| && j != k ensures !Has(s, s.ts[j], i) {
      if Has(s, s.ts[j], i) { OnlyOwner(s, k, j, i); }
    }
    assert OthersHave(s, s', k);
    assert forall l :: Has(s', s'.ts[k], l) <==> Has(s, s.ts[k], l) && l != i;
  }

  lemma {:induction false} ReleaseStep(s: State, k: nat)
    requires Inv(s) && Enabled(s, k) && s.ts[k].phase == Loop && s.ts[k].both
    ensures Inv(Move(s, k))
  {
    assert ThreadOk(s, k);
    RingSucc(k + s.ts[k].r, |s.ts| + 1);
    ReleaseOwner(s, k);
    forall j | 0 <= j < |s.ts| ensures ThreadOk(Move(s, k), j) {
      assert ThreadOk(s, j);
      LoopThread(s, k, j);
    }
  }

  lemma {:induction false} FinishOwner(s: State, k: nat)
    requires Inv(s) && Enabled(s, k) && s.ts[k].phase == Loop && !s.ts[k].both && s.ts[k].r == s.rounds
    ensures OwnerOk(Move(s, k))
  {
    forall j | 0 <= j < |s.ts| && j != k ensures !Has(s, s.ts[j], s.ts[k].i) {
      if Has(s, s.ts[j], s.ts[k].i) { OnlyOwner(s, k, j, s.ts[k].i); }
    }
    assert OthersHave(s, Move(s, k), k);
  }

  lemma {:induction false} FinishStep(s: State, k: nat)
    requires Inv(s) && Enabled(s, k) && s.ts[k].phase == Loop && !s.ts[k].both && s.ts[k].r == s.rounds
    ensures Inv(Move(s, k))
  {
    assert ThreadOk(s, k);
    FinishOwner(s, k);
    forall j | 0 <= j < |s.ts| ensures ThreadOk(Move(s, k), j) {
      assert ThreadOk(s, j);
      LoopThread(s, k, j);
    }
  }

  lemma {:induction false} StepKeeps(s: State, k: nat)
    requires Inv(s)
    ensures Inv(Next(s, k)) && |Next(s, k).ts| == |s.ts|
  {
    if Enabled(s, k) {
      assert ThreadOk(s, k);
      if s.ts[k].phase != Loop {
        FirstStep(s, k);
      } else if s.ts[k].both {
        ReleaseStep(s, k);
      } else if s.ts[k].r == s.rounds {
        FinishStep(s, k);
      } else {
        TakeStep(s, k);
      }
    }
  }

  lemma {:induction false} RunKeeps(n: nat, rounds: nat, steps: seq<nat>)
    ensures Inv(Run(Init(n, rounds), steps)) && |Run(Init(n, rounds), steps).ts| == n
    decreases |steps|
  {
    if steps == [] {
      InitKeeps(n, rounds);
    } else {
      RunKeeps(n, rounds, steps[..|steps| - 1]);
      StepKeeps(Run(Init(n, rounds), steps[..|steps| - 1]), steps[|steps| - 1]);
    }
  }

  // ----- what this means for the test

  /** At every moment at most one thread holds two mutexes. */
  lemma {:induction false} OneHoldsTwo(n: nat, rounds: nat, steps: seq<nat>, j: nat, k: nat)
    requires var ts := Run(Init(n, rounds), steps).ts; j < |ts| && k < |ts| && ts[j].both && ts[k].both
    ensures j == k
  {
    var s := Run(Init(n, rounds), steps);
    RunKeeps(n, rounds, steps);
    if j < k {
      ChainOrder(s, j, k);
    } else if k < j {
      ChainOrder(s, k, j);
    }
  }

  /** No mutex is held by two threads, and each is held by whoever `owner` names. */
  lemma {:induction false} Exclusive(n: nat, rounds: nat, steps: seq<nat>, j: nat, k: nat, l: nat)
    requires var s := Run(Init(n, rounds), steps); j < |s.ts| && k < |s.ts| && Has(s, s.ts[j], l) && Has(s, s.ts[k], l)
    ensures j == k
  {
    RunKeeps(n, rounds, steps);
    OnlyOwner(Run(Init(n, rounds), steps), j, k, l);
  }

  /** A thread that has gone on `r` times has gone round the ring that far from its first mutex, and finishes after
      `rounds` times, holding none; nobody starts before everybody has its first mutex. */
  lemma {:induction false} GoesRound(n: nat, rounds: nat, steps: seq<nat>, k: nat)
    requires k < n
    ensures var s := Run(Init(n, rounds), steps);
      && k < |s.ts| && s.ts[k].i == Ring(k + s.ts[k].r, n + 1) && s.ts[k].r <= rounds
      && (s.ts[k].phase == Finished ==> s.ts[k].r == rounds && forall l :: 0 <= l < |s.owner| ==> s.owner[l] != Some(k))
      && (s.ts[k].phase == Line || s.ts[k].phase == Loop ==> s.ts[k].i < |s.owner| && s.owner[s.ts[k].i] == Some(k))
      && (s.ts[k].phase == Loop || s.ts[k].phase == Finished ==> AllLined(s))
  {
    var s := Run(Init(n, rounds), steps);
    RunKeeps(n, rounds, steps);
    SameRounds(n, rounds, steps);
    assert ThreadOk(s, k);
    if s.ts[k].phase == Line || s.ts[k].phase == Loop {
      assert Has(s, s.ts[k], s.ts[k].i);
    }
  }

  /** Thread `k` lacks rounds and the one in front of it is further: the mutex between them is free. */
  lemma {:induction false} GapFree(s: State, k: nat)
    requires Inv(s) && AllLined(s) && k < |s.ts| && s.ts[k].phase == Loop && !s.ts[k].both
    requires forall j :: 0 <= j < |s.ts| ==> !s.ts[j].both
    requires if k < |s.ts| - 1 then s.ts[k].r < s.ts[k + 1].r else s.ts[k].r == s.ts[0].r
    ensures Free(s, Succ(s, s.ts[k].i))
  {
    var n := |s.ts| + 1;
    assert ThreadOk(s, k);
    RingSucc(k + s.ts[k].r, n);
    forall j | 0 <= j < |s.ts| ensures !Has(s, s.ts[j], Succ(s, s.ts[k].i)) {
      assert ThreadOk(s, j);
      NotThere(s, k, j);
    }
  }

  lemma {:induction false} NotThere(s: State, k: nat, j: nat)
    requires ChainOk(s) && k < |s.ts| && j < |s.ts|
    requires forall l :: 0 <= l < |s.ts| ==> !s.ts[l].both
    requires if k < |s.ts| - 1 then s.ts[k].r < s.ts[k + 1].r else s.ts[k].r == s.ts[0].r
    ensures Ring(j + s.ts[j].r, |s.ts| + 1) != Ring(k + s.ts[k].r + 1, |s.ts| + 1)
  {
    var n, x, y := |s.ts| + 1, j + s.ts[j].r, k + s.ts[k].r + 1;
    if j <= k {
      if j < k { ChainOrder(s, j, k); }
      RingDiffers(x, y, n);
    } else {
      if k + 1 < j { ChainOrder(s, k + 1, j); }
      ChainOrder(s, k, j);
      RingDiffers(y, x, n);
    }
  }

  /** As long as some thread has not finished, some thread can go on: the held mutexes never close the ring. */
  lemma {:induction false} SomeEnabled(s: State, j: nat) returns (k: nat)
    requires Inv(s) && j < |s.ts| && s.ts[j].phase != Finished
    ensures Enabled(s, k)
  {
    if !AllLined(s) {
      k :| 0 <= k < |s.ts| && s.ts[k].phase == First;
      FirstFree(s, k);
    } else if l :| 0 <= l < |s.ts| && (s.ts[l].phase == Line || s.ts[l].both) {
      k := l;
      assert ThreadOk(s, k);
    } else {
      k := LoopEnabled(s, j);
    }
  }

  lemma {:induction false} FirstFree(s: State, k: nat)
    requires Inv(s) && k < |s.ts| && s.ts[k].phase == First
    ensures Free(s, s.ts[k].i)
  {
    assert ThreadOk(s, k);
    forall j | 0 <= j < |s.ts| ensures !Has(s, s.ts[j], s.ts[k].i) {
      assert ThreadOk(s, j);
      if j < k { RingDiffers(j, k, |s.ts| + 1); } else if k < j { RingDiffers(k, j, |s.ts| + 1); }
    }
  }

  /** In the loop: a thread that has done all its rounds, or one behind a gap. */
  lemma {:induction false} LoopEnabled(s: State, j: nat) returns (k: nat)
    requires Inv(s) && AllLined(s) && j < |s.ts| && s.ts[j].phase == Loop
    requires forall l :: 0 <= l < |s.ts| ==> s.ts[l].phase != Line && !s.ts[l].both
    ensures Enabled(s, k)
  {
    assert ThreadOk(s, j);
    if s.ts[j].r == s.rounds {
      k := j;
    } else {
      k := Gap(s, j);
      assert ThreadOk(s, k);
      GapFree(s, k);
    }
  }

  /** The last thread from `j` on that is not ahead of `j`. */
  lemma {:induction false} Gap(s: State, j: nat) returns (k: nat)
    requires Inv(s) && AllLined(s) && j < |s.ts| && s.ts[j].phase == Loop && s.ts[j].r < s.rounds
    requires forall l :: 0 <= l < |s.ts| ==> s.ts[l].phase != Line && !s.ts[l].both
    ensures k < |s.ts| && s.ts[k].phase == Loop
    ensures if k < |s.ts| - 1 then s.ts[k].r < s.ts[k + 1].r else s.ts[k].r == s.ts[0].r
    decreases s.rounds - s.ts[j].r, |s.ts| - j
  {
    if j < |s.ts| - 1 && s.ts[j].r < s.ts[j + 1].r {
      k := j;
    } else if j < |s.ts| - 1 {
      assert ThreadOk(s, j + 1);
      k := Gap(s, j + 1);
    } else if s.ts[j].r == s.ts[0].r {
      k := j;
    } else {
      ChainOrder(s, 0, j);
      k := FirstGap(s, 0);
    }
  }

  /** If the last thread is one ahead of the first, some thread between them is the first to be ahead. */
  lemma {:induction false} FirstGap(s: State, j: nat) returns (k: nat)
    requires Inv(s) && AllLined(s) && j < |s.ts| - 1 && s.ts[j].r == s.ts[0].r < s.ts[|s.ts| - 1].r
    requires forall l :: 0 <= l < |s.ts| ==> s.ts[l].phase != Line && !s.ts[l].both
    ensures k < |s.ts| - 1 && s.ts[k].phase == Loop && s.ts[k].r < s.ts[k + 1].r
    decreases |s.ts| - j
  {
    assert ThreadOk(s, j) && ThreadOk(s, |s.ts| - 1);
    if s.ts[j].r < s.ts[j + 1].r {
      k := j;
    } else {
      k := FirstGap(s, j + 1);
    }
  }

  // ----- every run ends

  function Rank(th: Thread, rounds: nat): int {
    match th.phase
    case First => 2 * rounds + 3
    case Line => 2 * rounds + 2
    case Loop => 2 * (rounds - th.r) + 1 - if th.both then 1 else 0
    case Finished => 0
  }

  /** The steps left in all. */
  function Remaining(ts: seq<Thread>, rounds: nat): int {
    if ts == [] then 0 else Remaining(ts[..|ts| - 1], rounds) + Rank(ts[|ts| - 1], rounds)
  }

  lemma {:induction false} RemainingUpdate(ts: seq<Thread>, k: nat, th: Thread, rounds: nat)
    requires k < |ts|
    ensures Remaining(ts[k := th], rounds) == Remaining(ts, rounds) - Rank(ts[k], rounds) + Rank(th, rounds)
  {
    var front := ts[..|ts| - 1];
    if k < |ts| - 1 {
      RemainingUpdate(front, k, th, rounds);
      assert ts[k := th][..|ts| - 1] == front[k := th];
    } else {
      assert ts[k := th][..|ts| - 1] == front;
    }
  }

  lemma {:induction false} RemainingPositive(ts: seq<Thread>, rounds: nat)
    requires forall k :: 0 <= k < |ts| ==> Rank(ts[k], rounds) >= 0
    ensures Remaining(ts, rounds) >= 0
  {
    if ts != [] { RemainingPositive(ts[..|ts| - 1], rounds); }
  }

  /** In every reachable state: while some thread has not finished some thread can take a step, and every
      step leaves fewer to be made, of which there are never less than none. */
  lemma {:induction false} EverybodyFinishes(n: nat, rounds: nat, steps: seq<nat>)
    ensures var s := Run(Init(n, rounds), steps);
      && ((exists j :: 0 <= j < |s.ts| && s.ts[j].phase != Finished) ==> exists k: nat :: Enabled(s, k))
      && (forall k: nat :: Enabled(s, k) ==> Remaining(Move(s, k).ts, rounds) < Remaining(s.ts, rounds))
      && Remaining(s.ts, rounds) >= 0
  {
    var s := Run(Init(n, rounds), steps);
    RunKeeps(n, rounds, steps);
    SameRounds(n, rounds, steps);
    if j :| 0 <= j < |s.ts| && s.ts[j].phase != Finished {
      var k := SomeEnabled(s, j);
    }
    forall k: nat | Enabled(s, k) ensures Remaining(Move(s, k).ts, rounds) < Remaining(s.ts, rounds) {
      assert ThreadOk(s, k);
      RemainingUpdate(s.ts, k, Move(s, k).ts[k], rounds);
    }
    forall k | 0 <= k < |s.ts| ensures Rank(s.ts[k], rounds) >= 0 {
      assert ThreadOk(s, k);
    }
    RemainingPositive(s.ts, rounds);
  }

  lemma {:induction false} SameRounds(n: nat, rounds: nat, steps: seq<nat>)
    ensures Run(Init(n, rounds), steps).rounds == rounds
    decreases |steps|
  {
    if steps != [] { SameRounds(n, rounds, steps[..|steps| - 1]); }
  }
}
