/** How the parallel sort ends: no worker disturbs another, a worker's steps are those of `Quicksort.Pass`,
    and the pool can make only so many steps before every thread has exited. */
module QsortEnds {
  import opened Options
  import opened Ordering
  import opened Quicksort
  import opened QsortPool
  import opened QsortPoolSafe
  import opened QsortRanges

  // ----- a pass of the sequential sort, as steps of the pool

  /** What `Pass` promises about a range is what the pool's steps ask for. */
  lemma {:induction false} PassIsSteps<T(!new)>(s: State<T>, t: seq<T>, k: nat, done: bool, nl: nat, nr: nat, cmp: Comparator<T>)
    requires Sized(s.p) && k < |s.p.pcs| && s.p.pcs[k].Busy?
    requires var cur := s.p.pcs[k].cur;
      && Shuffled(s.content, t, cur.lo, cur.lo + cur.n)
      && if done then Sorted(t, cur.lo, cur.lo + cur.n, cmp) else Parted(t, cur.lo, cur.lo + cur.n, nl, nr, cmp)
    ensures var c := s.p.pcs[k];
      && Next(s, Rearrange(k, t), cmp) == s.(content := t)
      && Next(s.(content := t), if done then SortedNow(k) else Partitioned(k, nl, nr), cmp)
         == State(t, At(s.p, k, if done then Return(c.stack) else Parts(c.cur, nl, nr, c.stack)))
  {
  }

  /** A worker that runs a pass on its range takes the pool from one of its states to another. */
  method WorkerPass<T(!new)>(a: array<T>, ghost s: State<T>, ghost k: nat, cur: Range, cmp: Comparator<T>)
    returns (done: bool, nl: nat, nr: nat, ghost s': State<T>)
    requires Sized(s.p) && k < |s.p.pcs| && s.p.pcs[k].Busy? && s.p.pcs[k].cur == cur
    requires a[..] == s.content && cur.lo + cur.n <= a.Length && Preorder(cmp)
    modifies a
    ensures a[..] == s'.content
    ensures s' == Run(s, [Rearrange(k, a[..]), if done then SortedNow(k) else Partitioned(k, nl, nr)], cmp)
    ensures var c := s.p.pcs[k]; s'.p == At(s.p, k, if done then Return(c.stack) else Parts(cur, nl, nr, c.stack))
  {
    var l, r;
    done, l, r := Pass(a, cur.lo, cur.lo + cur.n, cmp);
    nl, nr := if done then 0 else l, if done then 0 else r;
    PassIsSteps(s, a[..], k, done, nl, nr, cmp);
    ghost var first, second: Step<T> := Rearrange(k, a[..]), if done then SortedNow(k) else Partitioned(k, nl, nr);
    s' := Next(Next(s, first, cmp), second, cmp);
    TwoSteps(s, first, second, cmp);
  }

  lemma {:induction false} TwoSteps<T(!new)>(s: State<T>, first: Step<T>, second: Step<T>, cmp: Comparator<T>)
    ensures Run(s, [first, second], cmp) == Next(Next(s, first, cmp), second, cmp)
  {
    var steps := [first, second];
    assert steps[..1] == [first] && [first][..0] == [];
    assert Run(s, [first], cmp) == Next(Run(s, [], cmp), first, cmp);
  }

  lemma {:induction false} BusyApart(p: Pool, k: nat, l: nat)
    requires PoolOk(p) && RangesOk(p) && k < |p.pcs| && l < |p.pcs| && k != l && p.pcs[k].Busy? && p.pcs[l].Busy?
    ensures Disjoint(p.pcs[k].cur, p.pcs[l].cur)
  {
    BusyHeld(p, k);
    BusyHeld(p, l);
    FirstApart(Pending(p), k, l, 0);
  }

  lemma {:induction false} MoveLeaves(p: Pool, k: nat, l: nat)
    requires PoolOk(p) && k < |p.pcs| && l < |p.pcs| && k != l && p.pcs[l].Busy?
    ensures Move(p, k).pcs[l] == p.pcs[l]
  {
    assert ThreadOk(p, k);
  }

  /** Nobody else changes what a worker sees of its range, or where the worker stands: a pass that other threads
      interrupt comes to the same. */
  lemma {:induction false} OthersLeave<T(!new)>(s: State<T>, input: seq<T>, step: Step<T>, k: nat, i: int, cmp: Comparator<T>)
    requires Inv(s, input, cmp) && k < |s.p.pcs| && s.p.pcs[k].Busy? && (step.GoMain? || step.k != k)
    requires Within(s.p.pcs[k].cur, i) && i < |s.content|
    ensures var s' := Next(s, step, cmp);
      k < |s'.p.pcs| && s'.p.pcs[k] == s.p.pcs[k] && |s'.content| == |s.content| && s'.content[i] == s.content[i]
  {
    if step.Go? && step.k < |s.p.pcs| {
      MoveLeaves(s.p, step.k, k);
    } else if step.Rearrange? && step.k < |s.p.pcs| && s.p.pcs[step.k].Busy? {
      BusyApart(s.p, k, step.k);
    }
  }

  // ----- large parts go to idle threads

  /** A thread in search of an idle slot has seen that the ones before are not. */
  ghost predicate SeenBusy(p: Pool) {
    forall k, j :: 0 <= k < |p.pcs| && p.pcs[k].Search? && 0 <= j < |p.slots| && j < p.pcs[k].i ==> p.slots[j].st != Idle
  }

  /** Only who holds `mtx_al` makes a slot idle. */
  lemma {:induction false} IdleByCount(p: Pool, k: nat, j: nat)
    requires Sized(p) && k < |p.pcs| && j < |p.slots| && p.slots[j].st != Idle && Move(p, k).slots[j].st == Idle
    ensures p.pcs[k].Count?
  {
  }

  lemma {:induction false} SearchOn(p: Pool, k: nat)
    requires Sized(p) && k < |p.pcs| && Move(p, k).pcs[k].Search?
    ensures var c, c' := p.pcs[k], Move(p, k).pcs[k];
      if c.Search? then c'.i == c.i || (c'.i == c.i + 1 && c.i < |p.slots| && p.slots[c.i].st != Idle) else c'.i == 0
  {
    if p.pcs[k].Search? {
      SearchedOn(p, k);
    } else {
      SearchBegins(p, k);
    }
  }

  lemma {:induction false} SearchBegins(p: Pool, k: nat)
    requires Sized(p) && k < |p.pcs| && !p.pcs[k].Search? && Move(p, k).pcs[k].Search?
    ensures p.pcs[k].Allocate? && Move(p, k).pcs[k].i == 0
  {
  }

  lemma {:induction false} SearchedOn(p: Pool, k: nat)
    requires Sized(p) && k < |p.pcs| && p.pcs[k].Search? && Move(p, k).pcs[k].Search?
    ensures var i, i' := p.pcs[k].i, Move(p, k).pcs[k].i; i' == i + 1 && i < |p.slots| && p.slots[i].st != Idle
  {
  }

  lemma {:induction false} MovesSeen(p: Pool, k: nat, l: nat, j: nat)
    requires PoolOk(p) && SeenBusy(p) && k < |p.pcs| && l < |p.pcs| && j < |p.slots|
    requires Move(p, k).pcs[l].Search? && j < Move(p, k).pcs[l].i
    ensures Move(p, k).slots[j].st != Idle
  {
    if l == k {
      SearchOn(p, k);
    } else {
      assert ThreadOk(p, k) && ThreadOk(p, l);
      if Reaches(p.pcs[k]) && p.pcs[k].i == l {
        ReachedStays(p, k, l);
      } else {
        Elsewhere(p, k, l);
      }
    }
    if Move(p, k).slots[j].st == Idle && p.slots[j].st != Idle {
      IdleByCount(p, k, j);
    }
  }

  /** Who is reached is not in search of a slot. */
  lemma {:induction false} ReachedStays(p: Pool, k: nat, l: nat)
    requires Sized(p) && k < |p.pcs| && l < |p.pcs| && l != k && Move(p, k).pcs[l].Search?
    requires Reaches(p.pcs[k]) && p.pcs[k].i == l
    ensures p.pcs[l] == Move(p, k).pcs[l]
  {
  }

  lemma {:induction false} StepSeen<T(!new)>(s: State<T>, step: Step<T>, cmp: Comparator<T>)
    requires PoolOk(s.p) && SeenBusy(s.p)
    ensures SeenBusy(Next(s, step, cmp).p)
  {
    if step.Go? && step.k < |s.p.pcs| {
      var p' := Move(s.p, step.k);
      forall l, j | 0 <= l < |p'.pcs| && p'.pcs[l].Search? && 0 <= j < |p'.slots| && j < p'.pcs[l].i ensures p'.slots[j].st != Idle {
        MovesSeen(s.p, step.k, l, j);
      }
    }
  }

  lemma {:induction false} RunSeen<T(!new)>(input: seq<T>, threads: nat, forkelem: nat, steps: seq<Step<T>>, cmp: Comparator<T>)
    requires threads >= 1 && Preorder(cmp)
    ensures SeenBusy(Run(Init(input, threads, forkelem), steps, cmp).p)
    decreases |steps|
  {
    if steps != [] {
      var front := steps[..|steps| - 1];
      RunSeen(input, threads, forkelem, front, cmp);
      RunKeeps(input, threads, forkelem, front, cmp);
      StepSeen(Run(Init(input, threads, forkelem), front, cmp), steps[|steps| - 1], cmp);
    }
  }

  /** A worker that has parted its range in two parts above the threshold, and has not yet gone on with either. */
  predicate Parting(c: Pc, forkelem: nat) {
    (c.Parts? || c.Allocate? || c.Search? || c.Claim? || c.Give?) && c.nl > forkelem && c.nr > forkelem
  }

  /** Such a worker, step by step, gives the left part to the slot of another thread, unless in the end no slot is idle. */
  lemma {:induction false} LargeHandedOver<T(!new)>(input: seq<T>, threads: nat, forkelem: nat, steps: seq<Step<T>>, k: nat, cmp: Comparator<T>)
    requires threads >= 1 && Preorder(cmp)
    requires var p := Run(Init(input, threads, forkelem), steps, cmp).p; k < |p.pcs| && Parting(p.pcs[k], p.forkelem)
    ensures var p := Run(Init(input, threads, forkelem), steps, cmp).p;
      Sized(p) && var p', c := Move(p, k), p.pcs[k];
      || (Parting(p'.pcs[k], p.forkelem) && PcRanges(p'.pcs[k]) == PcRanges(c))
      || (exists i :: 0 <= i < |p.slots| && i != k && p'.slots[i] == Slot(Work, Left(c.cur, c.nl), true))
      || (forall i :: 0 <= i < |p.slots| ==> p.slots[i].st != Idle)
  {
    var s := Run(Init(input, threads, forkelem), steps, cmp);
    RunSeen(input, threads, forkelem, steps, cmp);
    RunKeeps(input, threads, forkelem, steps, cmp);
    PartingStep(s.p, k);
  }

  lemma {:induction false} PartingStep(p: Pool, k: nat)
    requires PoolOk(p) && SeenBusy(p) && k < |p.pcs| && Parting(p.pcs[k], p.forkelem)
    ensures var p', c := Move(p, k), p.pcs[k];
      || (Parting(p'.pcs[k], p.forkelem) && PcRanges(p'.pcs[k]) == PcRanges(c))
      || (exists i :: 0 <= i < |p.slots| && i != k && p'.slots[i] == Slot(Work, Left(c.cur, c.nl), true))
      || (forall i :: 0 <= i < |p.slots| ==> p.slots[i].st != Idle)
  {
    if p.pcs[k].Give? {
      assert ThreadOk(p, k);
      NextGive(p, k);
      var i := p.pcs[k].i;
      assert Move(p, k).slots[i] == Slot(Work, Left(p.pcs[k].cur, p.pcs[k].nl), true);
    } else {
      PartingOn(p, k);
    }
  }

  lemma {:induction false} PartingOn(p: Pool, k: nat)
    requires Sized(p) && SeenBusy(p) && k < |p.pcs| && Parting(p.pcs[k], p.forkelem) && !p.pcs[k].Give?
    ensures var p', c := Move(p, k), p.pcs[k];
      || (Parting(p'.pcs[k], p.forkelem) && PcRanges(p'.pcs[k]) == PcRanges(c))
      || (forall i :: 0 <= i < |p.slots| ==> p.slots[i].st != Idle)
  {
  }

  // ----- when a thread has exited

  /** As soon as one thread of the pool has exited, which is what `pthread_join` waits for, the array is sorted. */
  lemma {:induction false} SortedAtExit<T(!new)>(input: seq<T>, threads: nat, forkelem: nat, steps: seq<Step<T>>, k: nat, cmp: Comparator<T>)
    requires threads >= 1 && Preorder(cmp)
    requires var p := Run(Init(input, threads, forkelem), steps, cmp).p; k < |p.pcs| && p.pcs[k].Exited?
    ensures var s := Run(Init(input, threads, forkelem), steps, cmp);
      s.p.down && Sorted(s.content, 0, |s.content|, cmp) && multiset(s.content) == multiset(input)
  {
    RunKeeps(input, threads, forkelem, steps, cmp);
    assert ThreadOk(Run(Init(input, threads, forkelem), steps, cmp).p, k);
    SortedAtShutdown(input, threads, forkelem, steps, cmp);
  }

  // ----- how many steps there can be

  /** What a range of `n` elements may still cost in a pool of `threads`. */
  function Weight(threads: nat, n: nat): nat {
    (threads + 19) * n + 2
  }

  function StackWeight(threads: nat, stack: seq<Range>): nat {
    if stack == [] then 0 else Weight(threads, stack[0].n) + StackWeight(threads, stack[1..])
  }

  function PartsWeight(threads: nat, nl: nat, nr: nat, stack: seq<Range>): nat {
    Weight(threads, nl) + Weight(threads, nr) + StackWeight(threads, stack)
  }

  function PcWeight(threads: nat, c: Pc): nat {
    match c
    case Again => 3
    case Test => 2
    case Waiting => 0
    case Look => 1
    case Enter(stack) => 7 + StackWeight(threads, stack)
    case Busy(cur, stack) => 6 + Weight(threads, cur.n) + StackWeight(threads, stack)
    case Parts(_, nl, nr, stack) => threads + 22 + PartsWeight(threads, nl, nr, stack)
    case Return(stack) => 7 + StackWeight(threads, stack)
    case Allocate(_, nl, nr, stack) => threads + 21 + PartsWeight(threads, nl, nr, stack)
    case Search(_, nl, nr, stack, i) => 20 + (if i < threads then threads - i else 0) + PartsWeight(threads, nl, nr, stack)
    case Claim(_, nl, nr, stack, _) => 19 + PartsWeight(threads, nl, nr, stack)
    case Give(_, nl, nr, stack, _) => 11 + PartsWeight(threads, nl, nr, stack)
    case Finish => 5
    case Count => 4
    case Stop(i) => 1 + if i < threads then 4 * (threads - i) else 0
    case Exited => 0
  }

  /** A slot that has work whose thread has not begun will still cost its way through `qsort_thread`. */
  function SlotWeight(threads: nat, slot: Slot, c: Pc): nat {
    (if slot.given then Weight(threads, slot.work.n) else 0) + if slot.st == Work && (Resting(c) || c.Look?) then 7 else 0
  }

  function ThreadWeight(threads: nat, slot: Slot, c: Pc): nat {
    PcWeight(threads, c) + SlotWeight(threads, slot, c)
  }

  function Weights(p: Pool): (w: seq<nat>)
    requires |p.slots| == |p.pcs|
    ensures |w| == |p.pcs|
  {
    seq(|p.pcs|, k requires 0 <= k < |p.pcs| => ThreadWeight(|p.pcs|, p.slots[k], p.pcs[k]))
  }

  function Sum(w: seq<nat>): nat {
    if w == [] then 0 else Sum(w[..|w| - 1]) + w[|w| - 1]
  }

  function MainWeight(p: Pool): nat {
    match p.main
    case First => Weight(|p.pcs|, p.size) + 12
    case Hand => Weight(|p.pcs|, p.size) + 11
    case Join => 0
  }

  /** What the pool may still do, but for spurious wake-ups. */
  function Measure(p: Pool): nat
    requires |p.slots| == |p.pcs|
  {
    Sum(Weights(p)) + MainWeight(p) + if p.down then 0 else 4 * |p.pcs| + 1
  }

  lemma {:induction false} SumUpdate(w: seq<nat>, k: nat, x: nat)
    requires k < |w|
    ensures Sum(w[k := x]) == Sum(w) - w[k] + x
  {
    if k < |w| - 1 {
      SumUpdate(w[..|w| - 1], k, x);
      assert w[k := x][..|w| - 1] == w[..|w| - 1][k := x];
    } else {
      assert w[k := x][..|w| - 1] == w[..|w| - 1];
    }
  }

  /** Two threads change, and together they weigh less. */
  lemma {:induction false} TwoChange(w: seq<nat>, v: seq<nat>, k: nat, i: nat)
    requires k < |w| == |v| && i < |w| && i != k
    requires forall j :: 0 <= j < |w| && j != k && j != i ==> v[j] == w[j]
    ensures Sum(v) == Sum(w) - w[k] - w[i] + v[k] + v[i]
  {
    SumUpdate(w, k, v[k]);
    SumUpdate(w[k := v[k]], i, v[i]);
    assert v == w[k := v[k]][i := v[i]];
  }

  lemma {:induction false} OneChanges(w: seq<nat>, v: seq<nat>, k: nat)
    requires k < |w| == |v|
    requires forall j :: 0 <= j < |w| && j != k ==> v[j] == w[j]
    ensures Sum(v) == Sum(w) - w[k] + v[k]
  {
    SumUpdate(w, k, v[k]);
    assert v == w[k := v[k]];
  }

  lemma {:induction false} Distributes(a: nat, x: nat, y: nat, m: nat)
    requires m >= 1
    ensures a * (x + y + m) >= a * x + a * y + a
  {
    if m > 1 {
      Distributes(a, x, y, m - 1);
      assert a * (x + y + m) == a * (x + y + m - 1) + a;
    } else {
      assert a * (x + y + 1) == a * x + a * y + a;
    }
  }

  /** The parts of a range weigh less than the range, by enough to pay for handing one over. */
  lemma {:induction false} SplitWeight(threads: nat, n: nat, nl: nat, nr: nat)
    requires nl + nr < n
    ensures Weight(threads, nl) + Weight(threads, nr) + threads + 17 <= Weight(threads, n)
  {
    Distributes(threads + 19, nl, nr, n - nl - nr);
  }

  lemma {:induction false} TopWeight(threads: nat, r: Range, stack: seq<Range>)
    ensures PcWeight(threads, Top(r, stack)) <= 6 + Weight(threads, r.n) + StackWeight(threads, stack)
    ensures r.n == 0 ==> Weight(threads, r.n) == 2
  {
  }

  lemma {:induction false} PushWeight(threads: nat, r: Range, stack: seq<Range>)
    ensures StackWeight(threads, [r] + stack) == Weight(threads, r.n) + StackWeight(threads, stack)
  {
    assert ([r] + stack)[1..] == stack;
  }

  lemma {:induction false} RecurseWeight(p: Pool, k: nat)
    requires Sized(p) && k < |p.pcs| && (p.pcs[k].Parts? || p.pcs[k].Search?) && !p.slots[k].given
    ensures var r, c, n := Recurse(p, k), p.pcs[k], |p.pcs|;
      ThreadWeight(n, r.slots[k], r.pcs[k]) <= 7 + PartsWeight(n, c.nl, c.nr, c.stack)
  {
    var c, n := p.pcs[k], |p.pcs|;
    var r := Right(c.cur, c.nr);
    PushWeight(n, r, c.stack);
    TopWeight(n, r, c.stack);
  }

  /** The thread itself gets lighter by what it gives to another. */
  lemma {:induction false} OwnWeight(p: Pool, k: nat)
    requires Sized(p) && k < |p.pcs| && ThreadOk(p, k) && Move(p, k) != p
    requires !p.pcs[k].Claim? && !p.pcs[k].Give? && !p.pcs[k].Stop? && !p.pcs[k].Count?
    ensures ThreadWeight(|p.pcs|, Move(p, k).slots[k], Move(p, k).pcs[k]) < ThreadWeight(|p.pcs|, p.slots[k], p.pcs[k])
  {
    var c := p.pcs[k];
    if c.Parts? || c.Search? {
      SearchWeight(p, k);
    } else if c.Enter? || c.Return? {
      TopWeights(p, k);
    }
  }

  lemma {:induction false} SearchWeight(p: Pool, k: nat)
    requires Sized(p) && k < |p.pcs| && !p.slots[k].given && (p.pcs[k].Parts? || p.pcs[k].Search?) && p.slots[k].st == Work
    ensures ThreadWeight(|p.pcs|, Move(p, k).slots[k], Move(p, k).pcs[k]) < ThreadWeight(|p.pcs|, p.slots[k], p.pcs[k])
  {
    var c := Move(p, k).pcs[k];
    if !(c.Allocate? || c.Search? || c.Claim?) {
      NextRecurse(p, k);
      RecurseWeight(p, k);
    }
  }

  lemma {:induction false} TopWeights(p: Pool, k: nat)
    requires Sized(p) && k < |p.pcs| && ThreadOk(p, k) && (p.pcs[k].Enter? || p.pcs[k].Return?)
    ensures ThreadWeight(|p.pcs|, Move(p, k).slots[k], Move(p, k).pcs[k]) < ThreadWeight(|p.pcs|, p.slots[k], p.pcs[k])
  {
    var c := p.pcs[k];
    if c.Enter? {
      TopWeight(|p.pcs|, p.slots[k].work, c.stack);
    } else if c.stack != [] {
      NextReturn(p, k);
      TopWeight(|p.pcs|, c.stack[0], c.stack[1..]);
    }
  }

  lemma {:induction false} ClaimWeight(p: Pool, k: nat)
    requires Sized(p) && k < |p.pcs| && ThreadOk(p, k) && p.pcs[k].Claim? && Move(p, k) != p
    ensures var n, i, q := |p.pcs|, p.pcs[k].i, Move(p, k);
      && i < n && i != k && !q.down
      && ThreadWeight(n, q.slots[k], q.pcs[k]) + ThreadWeight(n, q.slots[i], q.pcs[i])
         < ThreadWeight(n, p.slots[k], p.pcs[k]) + ThreadWeight(n, p.slots[i], p.pcs[i])
  {
  }

  lemma {:induction false} GiveWeight(p: Pool, k: nat)
    requires Sized(p) && k < |p.pcs| && ThreadOk(p, k) && p.pcs[k].Give? && p.pcs[k].i != k
    ensures var n, i, q := |p.pcs|, p.pcs[k].i, Move(p, k);
      && i < n
      && ThreadWeight(n, q.slots[k], q.pcs[k]) + ThreadWeight(n, q.slots[i], q.pcs[i])
         < ThreadWeight(n, p.slots[k], p.pcs[k]) + ThreadWeight(n, p.slots[i], p.pcs[i])
  {
    var c := p.pcs[k];
    TopWeight(|p.pcs|, Right(c.cur, c.nr), c.stack);
  }

  lemma {:induction false} StopWeight(p: Pool, k: nat)
    requires Sized(p) && k < |p.pcs| && ThreadOk(p, k) && p.pcs[k].Stop? && p.pcs[k].i < |p.pcs| && p.pcs[k].i != k && Move(p, k) != p
    ensures var n, i, q := |p.pcs|, p.pcs[k].i, Move(p, k);
      ThreadWeight(n, q.slots[k], q.pcs[k]) + ThreadWeight(n, q.slots[i], q.pcs[i])
        < ThreadWeight(n, p.slots[k], p.pcs[k]) + ThreadWeight(n, p.slots[i], p.pcs[i])
  {
  }

  lemma {:induction false} StopSelfWeight(p: Pool, k: nat)
    requires Sized(p) && k < |p.pcs| && p.pcs[k].Stop? && (p.pcs[k].i >= |p.pcs| || p.pcs[k].i == k)
    ensures var n, q := |p.pcs|, Move(p, k);
      ThreadWeight(n, q.slots[k], q.pcs[k]) < ThreadWeight(n, p.slots[k], p.pcs[k])
  {
  }

  lemma {:induction false} CountWeight(p: Pool, k: nat)
    requires Sized(p) && k < |p.pcs| && ThreadOk(p, k) && p.pcs[k].Count?
    ensures var n, q := |p.pcs|, Move(p, k);
      && !p.down && ThreadWeight(n, q.slots[k], q.pcs[k]) + (if q.down then 0 else 4 * n + 1)
                    < ThreadWeight(n, p.slots[k], p.pcs[k]) + 4 * n + 1
  {
  }

  lemma {:induction false} DownSame(p: Pool, k: nat)
    requires Sized(p) && k < |p.pcs| && !p.pcs[k].Count?
    ensures Move(p, k).down == p.down
  {
  }

  /** A step that reaches into the slot of another thread. */
  lemma {:induction false} PairLower(p: Pool, k: nat)
    requires PoolOk(p) && k < |p.pcs| && Move(p, k) != p && Reaches(p.pcs[k]) && p.pcs[k].i < |p.pcs| && p.pcs[k].i != k
    ensures Sum(Weights(Move(p, k))) < Sum(Weights(p))
  {
    var i, q := p.pcs[k].i, Move(p, k);
    assert ThreadOk(p, k);
    match p.pcs[k] {
      case Claim(_, _, _, _, _) => ClaimWeight(p, k);
      case Give(_, _, _, _, _) => GiveWeight(p, k);
      case Stop(_) => StopWeight(p, k);
    }
    forall j | 0 <= j < |p.pcs| && j != k && j != i ensures Weights(q)[j] == Weights(p)[j] {
      Elsewhere(p, k, j);
    }
    TwoChange(Weights(p), Weights(q), k, i);
  }

  lemma {:induction false} OthersWeigh(p: Pool, k: nat)
    requires Sized(p) && k < |p.pcs| && (Reaches(p.pcs[k]) ==> p.pcs[k].i >= |p.pcs| || p.pcs[k].i == k)
    ensures Sum(Weights(Move(p, k))) == Sum(Weights(p)) - Weights(p)[k] + Weights(Move(p, k))[k]
  {
    var q := Move(p, k);
    forall j | 0 <= j < |p.pcs| && j != k ensures Weights(q)[j] == Weights(p)[j] {
      Elsewhere(p, k, j);
    }
    OneChanges(Weights(p), Weights(q), k);
  }

  lemma {:induction false} AloneLower(p: Pool, k: nat)
    requires PoolOk(p) && k < |p.pcs| && Move(p, k) != p && (Reaches(p.pcs[k]) ==> p.pcs[k].i >= |p.pcs| || p.pcs[k].i == k)
    ensures Measure(Move(p, k)) < Measure(p)
  {
    assert ThreadOk(p, k);
    OthersWeigh(p, k);
    if p.pcs[k].Count? {
      CountWeight(p, k);
    } else {
      DownSame(p, k);
      if p.pcs[k].Stop? {
        StopSelfWeight(p, k);
      } else {
        OwnWeight(p, k);
      }
    }
  }

  /** Every access that changes anything uses up some of what the pool can still do. */
  lemma {:induction false} MoveLower(p: Pool, k: nat)
    requires PoolOk(p) && k < |p.pcs| && Move(p, k) != p
    ensures Measure(Move(p, k)) < Measure(p)
  {
    if Reaches(p.pcs[k]) && p.pcs[k].i < |p.pcs| && p.pcs[k].i != k {
      PairLower(p, k);
      DownSame(p, k);
    } else {
      AloneLower(p, k);
    }
  }

  /** Thread `k` alone goes on to `c`. */
  lemma {:induction false} AtMeasure(p: Pool, k: nat, c: Pc)
    requires Sized(p) && k < |p.pcs|
    ensures Measure(At(p, k, c)) == Measure(p) - ThreadWeight(|p.pcs|, p.slots[k], p.pcs[k]) + ThreadWeight(|p.pcs|, p.slots[k], c)
  {
    var q := At(p, k, c);
    forall j | 0 <= j < |p.pcs| && j != k ensures Weights(q)[j] == Weights(p)[j] {
    }
    OneChanges(Weights(p), Weights(q), k);
  }

  lemma {:induction false} FirstWeight(p: Pool)
    requires Sized(p) && p.main == Hand
    ensures var n, q := |p.pcs|, MoveMain(p);
      ThreadWeight(n, q.slots[0], q.pcs[0]) < ThreadWeight(n, p.slots[0], p.pcs[0]) + MainWeight(p)
  {
  }

  lemma {:induction false} MainLower(p: Pool)
    requires PoolOk(p) && MoveMain(p) != p
    ensures Measure(MoveMain(p)) < Measure(p)
  {
    var q := MoveMain(p);
    if p.main == Hand {
      FirstWeight(p);
      forall j | 0 <= j < |p.pcs| && j != 0 ensures Weights(q)[j] == Weights(p)[j] {
      }
      OneChanges(Weights(p), Weights(q), 0);
    } else {
      assert Weights(q) == Weights(p);
    }
  }

  /** A worker that is through with its range, sorted or partitioned, has used up some of it. */
  lemma {:induction false} BusyLower(p: Pool, k: nat, c: Pc)
    requires Sized(p) && k < |p.pcs| && p.pcs[k].Busy?
    requires (c.Return? && c.stack == p.pcs[k].stack) || (c.Parts? && c.stack == p.pcs[k].stack && c.nl + c.nr < p.pcs[k].cur.n)
    ensures Measure(At(p, k, c)) < Measure(p)
  {
    AtMeasure(p, k, c);
    if c.Parts? {
      SplitWeight(|p.pcs|, p.pcs[k].cur.n, c.nl, c.nr);
    }
  }

  /** Every step that changes the pool lowers the measure, but for a spurious wake-up, which raises it by 3. */
  lemma {:induction false} StepLower<T(!new)>(s: State<T>, step: Step<T>, cmp: Comparator<T>)
    requires PoolOk(s.p)
    ensures var p' := Next(s, step, cmp).p;
      |p'.slots| == |p'.pcs| &&
      (p' == s.p || Measure(p') < Measure(s.p) || (step.Spurious? && Measure(p') == Measure(s.p) + 3))
  {
    var p, p' := s.p, Next(s, step, cmp).p;
    if p' != p {
      match step
      case GoMain => MainLower(p);
      case Go(k) => MoveLower(p, k);
      case Partitioned(k, nl, nr) => BusyLower(p, k, p'.pcs[k]);
      case SortedNow(k) => BusyLower(p, k, p'.pcs[k]);
      case Spurious(k) => AtMeasure(p, k, Again);
    }
  }

  /** How many steps of a run have changed the pool, other than spurious wake-ups, and how many of these there were. */
  ghost function Effective<T(!new)>(s: State<T>, steps: seq<Step<T>>, cmp: Comparator<T>): nat {
    if steps == [] then 0
    else
      var r, step := Run(s, steps[..|steps| - 1], cmp), steps[|steps| - 1];
      Effective(s, steps[..|steps| - 1], cmp) + if !step.Spurious? && Next(r, step, cmp).p != r.p then 1 else 0
  }

  function Spuriouses<T>(steps: seq<Step<T>>): nat {
    if steps == [] then 0
    else Spuriouses(steps[..|steps| - 1]) + if steps[|steps| - 1].Spurious? then 1 else 0
  }

  lemma {:induction false} RunMeasure<T(!new)>(input: seq<T>, threads: nat, forkelem: nat, steps: seq<Step<T>>, cmp: Comparator<T>)
    requires threads >= 1 && Preorder(cmp)
    ensures var s0 := Init(input, threads, forkelem);
      && |s0.p.slots| == |s0.p.pcs| && Sized(Run(s0, steps, cmp).p)
      && Effective(s0, steps, cmp) + Measure(Run(s0, steps, cmp).p) <= Measure(s0.p) + 3 * Spuriouses(steps)
    decreases |steps|
  {
    RunKeeps(input, threads, forkelem, steps, cmp);
    if steps != [] {
      var front := steps[..|steps| - 1];
      RunMeasure(input, threads, forkelem, front, cmp);
      RunKeeps(input, threads, forkelem, front, cmp);
      StepLower(Run(Init(input, threads, forkelem), front, cmp), steps[|steps| - 1], cmp);
    }
  }

  lemma {:induction false} AllAgain(w: seq<nat>)
    requires forall k :: 0 <= k < |w| ==> w[k] == 3
    ensures Sum(w) == 3 * |w|
  {
    if w != [] { AllAgain(w[..|w| - 1]); }
  }

  lemma {:induction false} InitMeasure<T>(input: seq<T>, threads: nat, forkelem: nat)
    ensures var p := Init(input, threads, forkelem).p;
      |p.slots| == |p.pcs| && Measure(p) == Weight(threads, |input|) + 7 * threads + 13
  {
    AllAgain(Weights(Init(input, threads, forkelem).p));
  }

  /** Every run comes to an end: apart from spurious wake-ups and the swaps inside a range, there are at most
      `(threads + 19) * |input| + 7 * threads + 15` steps, and 3 more for each spurious wake-up. With `RunsOn`:
      until every thread has exited some thread can take one of them. */
  lemma {:induction false} RunsBounded<T(!new)>(input: seq<T>, threads: nat, forkelem: nat, steps: seq<Step<T>>, cmp: Comparator<T>)
    requires threads >= 1 && Preorder(cmp)
    ensures Effective(Init(input, threads, forkelem), steps, cmp)
         <= (threads + 19) * |input| + 7 * threads + 15 + 3 * Spuriouses(steps)
  {
    RunMeasure(input, threads, forkelem, steps, cmp);
    InitMeasure(input, threads, forkelem);
  }
}
