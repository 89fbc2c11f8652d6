/** What each call of the mutex and of the condition variable does for its caller, from the call to the
    return, whatever the other threads do meanwhile. */
module FutexCalls {
  import opened FutexLock
  import opened Traces

  lemma {:induction false} TraceIsRun(s: State, more: seq<Step>, tr: seq<State>, c: nat)
    requires Trace(Next, s, more, tr) && c <= |more|
    ensures tr[c] == Run(s, more[..c])
  {
    if c > 0 {
      TraceIsRun(s, more, tr, c - 1);
      assert Follows(Next, tr, more, c - 1);
      assert more[..c][..c - 1] == more[..c - 1];
    }
  }

  /** The invariant holds all along, and `seq` never goes back. */
  lemma {:induction false} TraceInv(s: State, more: seq<Step>, tr: seq<State>, b: nat, c: nat)
    requires Inv(s) && Trace(Next, s, more, tr) && b <= c <= |more|
    ensures Inv(tr[c]) && |tr[c].pcs| == |s.pcs| && tr[b].done <= tr[c].done && tr[b].count <= tr[c].count
  {
    if c > 0 {
      TraceInv(s, more, tr, if b < c then b else c - 1, c - 1);
      assert Follows(Next, tr, more, c - 1);
      StepKeeps(tr[c - 1], more[c - 1]);
      CountGrows(tr[c - 1], more[c - 1]);
    }
  }

  // ----- calls

  /** Where a thread stands that is in no call. */
  predicate Home(p: Pc) {
    p.In? || p.Out?
  }

  function PcOf(s: State, k: nat): Pc {
    if k < |s.pcs| then s.pcs[k] else Out
  }

  /** Thread `k`, in no call, makes the call in state `s`; the run goes on through `tr`, and up to state `c` of it
      the call has not returned. */
  ghost predicate Within(s: State, k: nat, call: Call, more: seq<Step>, tr: seq<State>, c: nat) {
    && k < |s.pcs| && Home(s.pcs[k]) && Trace(Next, Next(s, Begin(k, call)), more, tr) && c <= |more|
    && forall b :: 0 <= b < c ==> !Home(PcOf(tr[b], k))
  }

  /** It returns with the last of these states. */
  ghost predicate Returns(s: State, k: nat, call: Call, more: seq<Step>, tr: seq<State>) {
    Within(s, k, call, more, tr, |more|) && Home(PcOf(tr[|more|], k))
  }

  lemma {:induction false} CallInv(s: State, k: nat, call: Call, more: seq<Step>, tr: seq<State>, c: nat)
    requires Inv(s) && Within(s, k, call, more, tr, c)
    ensures Inv(tr[c]) && |tr[c].pcs| == |s.pcs| && s.count <= tr[c].count
    ensures tr[0] == At(s, k, Begun(s.pcs[k], call))
  {
    StepKeeps(s, Begin(k, call));
    TraceInv(tr[0], more, tr, 0, c);
  }

  /** Asleep in a futex call. */
  predicate Dozes(p: Pc) {
    OnLock(p) || p.AsleepCond?
  }

  /** Other threads only wake a thread in a call, or move it to the mutex word. */
  lemma {:induction false} OthersStep(s: State, step: Step, k: nat)
    requires k < |s.pcs| && !Home(s.pcs[k]) && !(step.Go? && step.k == k)
    ensures var p, p' := s.pcs[k], PcOf(Next(s, step), k);
      p' == p || (Dozes(p) && p' == Awake(p)) || (p.AsleepCond? && p' == Requeued)
  {
    if step.k < |s.pcs| && step.Go? && !s.pcs[step.k].WakeLock? && !s.pcs[step.k].Notify? {
      Alone(s, step.k, step.again, step.j);
    }
  }

  // ----- locking and unlocking

  predicate Locking(p: Pc) {
    (p.TryLoad? || p.TryOr? || p.Exchange? || p.Wait? || p.AsleepLock?) && p.why == Caller
  }

  lemma {:induction false} LockingStep(s: State, step: Step, k: nat)
    requires k < |s.pcs| && Locking(s.pcs[k])
    ensures var p' := PcOf(Next(s, step), k); Locking(p') || p'.In?
  {
    if !(step.Go? && step.k == k) {
      OthersStep(s, step, k);
    }
  }

  lemma {:induction false} LockTrack(s: State, k: nat, more: seq<Step>, tr: seq<State>, c: nat)
    requires Inv(s) && Within(s, k, Lock, more, tr, c) && s.pcs[k].Out?
    ensures Locking(PcOf(tr[c], k)) || PcOf(tr[c], k).In?
  {
    CallInv(s, k, Lock, more, tr, c);
    if c > 0 {
      LockTrack(s, k, more, tr, c - 1);
      assert Follows(Next, tr, more, c - 1);
      LockingStep(tr[c - 1], more[c - 1], k);
    }
  }

  predicate Releasing(p: Pc) {
    (p.Unlock? || p.WakeLock?) && p.then_ == Leave
  }

  lemma {:induction false} ReleasingStep(s: State, step: Step, k: nat)
    requires k < |s.pcs| && Releasing(s.pcs[k])
    ensures var p' := PcOf(Next(s, step), k); Releasing(p') || p'.Out?
  {
    if !(step.Go? && step.k == k) {
      OthersStep(s, step, k);
    }
  }

  lemma {:induction false} ReleaseTrack(s: State, k: nat, more: seq<Step>, tr: seq<State>, c: nat)
    requires Inv(s) && Within(s, k, Release, more, tr, c) && s.pcs[k].In?
    ensures Releasing(PcOf(tr[c], k)) || PcOf(tr[c], k).Out?
  {
    CallInv(s, k, Release, more, tr, c);
    if c > 0 {
      ReleaseTrack(s, k, more, tr, c - 1);
      assert Follows(Next, tr, more, c - 1);
      ReleasingStep(tr[c - 1], more[c - 1], k);
    }
  }

  /** `mutex_lock`, called without the mutex, returns with it, and `mutex_unlock` the other way round. */
  lemma {:induction false} LockAndUnlock(n: nat, steps: seq<Step>, k: nat, call: Call, more: seq<Step>, tr: seq<State>)
    requires var s := Run(Init(n), steps); Returns(s, k, call, more, tr)
    requires call == (if Holder(Run(Init(n), steps), k) then Release else Lock)
    ensures Holder(tr[|more|], k) != Holder(Run(Init(n), steps), k)
  {
    var s := Run(Init(n), steps);
    RunKeeps(n, steps);
    CallInv(s, k, call, more, tr, |more|);
    if call == Lock {
      LockTrack(s, k, more, tr, |more|);
    } else {
      ReleaseTrack(s, k, more, tr, |more|);
    }
  }

  // ----- waiting

  /** On the way to take the mutex again at the end of `cond_wait`, or there. */
  predicate Coming(p: Pc) {
    || p.Requeued? || p.Mark? || p.In?
    || ((p.TryLoad? || p.TryOr? || p.Exchange? || p.Wait? || p.AsleepLock?) && p.why != Caller)
  }

  /** How a thread goes on in `cond_wait` when `seq` is `count`. */
  predicate WaitGoes(p: Pc, p': Pc, count: nat) {
    || p' == p
    || match p
       case Sample => p' == Unlock(Sleep(count))
       case Unlock(t) => p' == WakeLock(t) || p' == Released(t)
       case WakeLock(t) => p' == Released(t)
       case Watch(q) => p' == WaitCond(q) || (count != q && p' == TryLoad(Early))
       case WaitCond(q) => p' == AsleepCond(q) || (count != q && p' == TryLoad(Late))
       case AsleepCond(_) => p' == TryLoad(Late) || p' == Requeued
       case _ => Coming(p) && Coming(p')
  }

  predicate InWait(p: Pc) {
    || p.Sample? || ((p.Unlock? || p.WakeLock?) && p.then_.Sleep?)
    || p.Watch? || p.WaitCond? || p.AsleepCond? || (Coming(p) && !p.In?)
  }

  lemma {:induction false} WaitStep(s: State, step: Step, k: nat)
    requires k < |s.pcs| && InWait(s.pcs[k])
    ensures WaitGoes(s.pcs[k], PcOf(Next(s, step), k), s.count)
  {
    if !(step.Go? && step.k == k) {
      OthersStep(s, step, k);
    }
  }

  /** How far `cond_wait` has come that sampled `q`: whether it has given the mutex up, and slept. */
  predicate Stage(p: Pc, q: nat, count: nat, gone: bool, slept: bool) {
    || p == Sample
    || p == Unlock(Sleep(q))
    || (&& gone
        && (|| p == WakeLock(Sleep(q)) || p == Watch(q) || p == WaitCond(q)
            || (slept && (p == AsleepCond(q) || Coming(p)))
            || (q < count && Coming(p))))
  }

  lemma {:induction false} StageGoes(p: Pc, p': Pc, q: nat, count: nat, count': nat, gone: bool, slept: bool)
    requires Stage(p, q, count, gone, slept) && !p.In? && q <= count <= count' && WaitGoes(p, p', count)
    ensures Stage(p', if p.Sample? then count else q, count', gone || (Holds(p) && !Holds(p')), slept || p'.AsleepCond?)
  {
  }

  /** In state `c`: `seq` was sampled in state `a`, with the mutex held; in state `m` the mutex was not held, if
      it has been given up; in state `l` the thread was asleep on the condition word, if it has been. */
  ghost predicate WaitStage(tr: seq<State>, k: nat, c: nat, a: nat, m: nat, l: nat) {
    && a <= c < |tr| && tr[a].count <= tr[c].count && Holds(PcOf(tr[a], k))
    && Stage(PcOf(tr[c], k), tr[a].count, tr[c].count, Gone(tr, k, c, a, m), Slept(tr, k, c, m, l))
  }

  ghost predicate Gone(tr: seq<State>, k: nat, c: nat, a: nat, m: nat) {
    a <= m <= c < |tr| && !Holds(PcOf(tr[m], k))
  }

  ghost predicate Slept(tr: seq<State>, k: nat, c: nat, m: nat, l: nat) {
    m <= l <= c < |tr| && PcOf(tr[l], k).AsleepCond?
  }

  lemma {:induction false} WaitOn(tr: seq<State>, k: nat, c: nat, step: Step, a0: nat, m0: nat, l0: nat)
    returns (a: nat, m: nat, l: nat)
    requires 0 < c < |tr| && tr[c] == Next(tr[c - 1], step) && k < |tr[c - 1].pcs| == |tr[c].pcs|
    requires WaitStage(tr, k, c - 1, a0, m0, l0) && !Home(PcOf(tr[c - 1], k))
    ensures WaitStage(tr, k, c, a, m, l)
  {
    var p, p' := PcOf(tr[c - 1], k), PcOf(tr[c], k);
    CountGrows(tr[c - 1], step);
    WaitStep(tr[c - 1], step, k);
    a := if p.Sample? then c - 1 else a0;
    m := if Holds(p) && !Holds(p') then c else m0;
    l := if p'.AsleepCond? then c else l0;
    StageGoes(p, p', tr[a0].count, tr[c - 1].count, tr[c].count, Gone(tr, k, c - 1, a0, m0), Slept(tr, k, c - 1, m0, l0));
  }

  lemma {:induction false} WaitTrack(s: State, k: nat, more: seq<Step>, tr: seq<State>, c: nat) returns (a: nat, m: nat, l: nat)
    requires Inv(s) && Within(s, k, CondWait, more, tr, c) && s.pcs[k].In?
    ensures WaitStage(tr, k, c, a, m, l)
    decreases c
  {
    CallInv(s, k, CondWait, more, tr, c);
    if c == 0 {
      a, m, l := 0, 0, 0;
    } else {
      var a0, m0, l0 := WaitTrack(s, k, more, tr, c - 1);
      CallInv(s, k, CondWait, more, tr, c - 1);
      assert Follows(Next, tr, more, c - 1);
      a, m, l := WaitOn(tr, k, c, more[c - 1], a0, m0, l0);
    }
  }

  /** `cond_wait`, called with the mutex held, samples `seq` with the mutex held, then gives the mutex up, and returns
      with it held, but not before `seq` has moved from what it sampled or it has slept on the condition word. */
  lemma {:induction false} WaitReleases(n: nat, steps: seq<Step>, k: nat, more: seq<Step>, tr: seq<State>)
    returns (a: nat, m: nat, l: nat)
    requires var s := Run(Init(n), steps); Returns(s, k, CondWait, more, tr) && Holder(s, k)
    ensures a <= m <= |more| && l <= |more|
    ensures Holder(tr[a], k) && !Holder(tr[m], k) && Holder(tr[|more|], k)
    ensures tr[a].count < tr[|more|].count || (m <= l && PcOf(tr[l], k).AsleepCond?)
  {
    var s := Run(Init(n), steps);
    RunKeeps(n, steps);
    a, m, l := WaitTrack(s, k, more, tr, |more|);
    CallInv(s, k, CondWait, more, tr, |more|);
    CallInv(s, k, CondWait, more, tr, a);
    if l > |more| { l := 0; }
  }

  // ----- broadcast and signal

  /** Nobody falls asleep on the condition word any more with a `seq` sampled before. */
  lemma {:induction false} StaleTrace(s: State, more: seq<Step>, tr: seq<State>, i: nat, m: nat)
    requires Inv(s) && Trace(Next, s, more, tr) && m <= s.count
    requires var p := PcOf(tr[|more|], i); p.AsleepCond? && p.q < m
    ensures forall c :: 0 <= c <= |more| ==> PcOf(tr[c], i) == PcOf(tr[|more|], i)
    decreases |more|
  {
    if more != [] {
      var c := |more| - 1;
      TraceInv(s, more, tr, 0, c);
      TraceInv(s, more, tr, c, c + 1);
      assert Follows(Next, tr, more, c);
      StaleStep(tr[c], more[c], i, m);
      TraceFront(Next, s, more, tr, c);
      StaleTrace(s, more[..c], tr[..c + 1], i, m);
      assert forall b :: 0 <= b <= c ==> tr[..c + 1][b] == tr[b];
    }
  }

  /** In `cond_broadcast` or `cond_signal`, called when `seq` was `count`. */
  predicate Telling(p: Pc, all: bool, held: bool, count: nat) {
    || p == Bump(held, all)
    || (p.Notify? && p.held == held && p.all == all && count < p.n)
  }

  /** The call goes on, or wakes whom it has to wake and returns. */
  lemma {:induction false} TellingStep(s: State, step: Step, k: nat, all: bool, held: bool, count: nat)
    requires k < |s.pcs| && Telling(s.pcs[k], all, held, count) && count <= s.count
    ensures var p' := PcOf(Next(s, step), k);
      || Telling(p', all, held, count)
      || (&& p' == (if held then In else Out) && step.Go? && step.k == k && Access(s, k, step.again, step.j) != s
          && s.pcs[k].Notify? && s.pcs[k].all == all && count < s.pcs[k].n && (all ==> count < Next(s, step).done))
  {
    if !(step.Go? && step.k == k) {
      OthersStep(s, step, k);
    }
  }

  lemma {:induction false} TellTrack(s: State, k: nat, call: Call, more: seq<Step>, tr: seq<State>, c: nat)
    requires Inv(s) && (call == Broadcast || call == Signal) && Within(s, k, call, more, tr, c)
    requires !Home(PcOf(tr[c], k))
    ensures Telling(PcOf(tr[c], k), call == Broadcast, s.pcs[k].In?, s.count)
  {
    CallInv(s, k, call, more, tr, c);
    if c > 0 {
      TellTrack(s, k, call, more, tr, c - 1);
      CallInv(s, k, call, more, tr, c - 1);
      assert Follows(Next, tr, more, c - 1);
      TellingStep(tr[c - 1], more[c - 1], k, call == Broadcast, s.pcs[k].In?, s.count);
    }
  }

  /** The last step of the call is its wake-up. */
  lemma {:induction false} TellEnds(s: State, k: nat, call: Call, more: seq<Step>, tr: seq<State>)
    requires Inv(s) && (call == Broadcast || call == Signal) && Returns(s, k, call, more, tr)
    ensures PcOf(tr[|more|], k) == s.pcs[k]
    ensures more != [] && var c, step := |more| - 1, more[|more| - 1];
      && step.Go? && step.k == k < |tr[c].pcs| && Access(tr[c], k, step.again, step.j) != tr[c]
      && tr[c].pcs[k].Notify? && (tr[c].pcs[k].all <==> call == Broadcast) && s.count < tr[c].pcs[k].n
      && (call == Broadcast ==> s.count < tr[|more|].done)
  {
    CallInv(s, k, call, more, tr, |more|);
    CallInv(s, k, call, more, tr, 0);
    assert more != [];
    var c := |more| - 1;
    TellTrack(s, k, call, more, tr, c);
    CallInv(s, k, call, more, tr, c);
    assert Follows(Next, tr, more, c);
    TellingStep(tr[c], more[c], k, call == Broadcast, s.pcs[k].In?, s.count);
  }

  /** From the return of a broadcast on, no thread that sampled `seq` before the call is asleep on the condition
      word, in any continuation of the run; and the caller holds the mutex if it held it before. */
  lemma {:induction false} BroadcastReachesAll(n: nat, steps: seq<Step>, k: nat, more: seq<Step>, tr: seq<State>,
                                               later: seq<Step>, i: nat)
    requires Returns(Run(Init(n), steps), k, Broadcast, more, tr)
    requires PcOf(Run(tr[|more|], later), i).AsleepCond?
    ensures Run(Init(n), steps).count < PcOf(Run(tr[|more|], later), i).q
    ensures PcOf(tr[|more|], k) == PcOf(Run(Init(n), steps), k)
  {
    var s := Run(Init(n), steps);
    RunKeeps(n, steps);
    TellEnds(s, k, Broadcast, more, tr);
    CallInv(s, k, Broadcast, more, tr, |more|);
    var tr' := TraceExists(Next, tr[|more|], later);
    TraceInv(tr[|more|], later, tr', 0, |later|);
    TraceIsRun(tr[|more|], later, tr', |later|);
    assert later[..|later|] == later;
  }

  lemma {:induction false} SignalWakes(s: State, k: nat, again: bool, j: nat, i: nat)
    requires k < |s.pcs| && i < |s.pcs| && s.pcs[k].Notify? && !s.pcs[k].all && Access(s, k, again, j) != s
    requires s.pcs[i].AsleepCond? && PcOf(Access(s, k, again, j), i).AsleepCond?
    ensures i != j < |s.pcs| && s.pcs[j].AsleepCond? && PcOf(Access(s, k, again, j), j) == TryLoad(Late)
  {
  }

  lemma {:induction false} SignalReaches(s: State, k: nat, more: seq<Step>, tr: seq<State>, later: seq<Step>, tr': seq<State>, i: nat)
    requires Inv(s) && Returns(s, k, Signal, more, tr) && Trace(Next, tr[|more|], later, tr')
    requires var p := PcOf(tr'[|later|], i); p.AsleepCond? && p.q <= s.count
    ensures more != [] && var c := |more| - 1;
      && more[c].Go? && more[c].k == k && i != more[c].j
      && PcOf(tr[c], i) == PcOf(tr[c + 1], i) == PcOf(tr'[|later|], i)
      && PcOf(tr[c], more[c].j).AsleepCond? && !Dozes(PcOf(tr[c + 1], more[c].j))
  {
    TellEnds(s, k, Signal, more, tr);
    CallInv(s, k, Signal, more, tr, |more|);
    var c := |more| - 1;
    CallInv(s, k, Signal, more, tr, c);
    assert Follows(Next, tr, more, c);
    CountGrows(tr[c], more[c]);
    var m := tr[c].pcs[k].n;
    StaleTrace(tr[|more|], later, tr', i, m);
    StaleStep(tr[c], more[c], i, m);
    SignalWakes(tr[c], k, more[c].again, more[c].j, i);
  }

  /** If a thread that sampled `seq` before a signal was called is still asleep on the condition word at any time
      after that signal has returned, the signal has woken another sleeper, `j`, with its step `c`, and the first
      slept on meanwhile. So no signal is lost, and a thread that sleeps there alone is always reached. */
  lemma {:induction false} SignalReachesOne(n: nat, steps: seq<Step>, k: nat, more: seq<Step>, tr: seq<State>,
                                            later: seq<Step>, i: nat) returns (c: nat, j: nat)
    requires Returns(Run(Init(n), steps), k, Signal, more, tr)
    requires var p := PcOf(Run(tr[|more|], later), i); p.AsleepCond? && p.q <= Run(Init(n), steps).count
    ensures c < |more| && more[c].Go? && more[c].k == k && i != j
    ensures PcOf(tr[c], i) == PcOf(tr[c + 1], i) == PcOf(Run(tr[|more|], later), i)
    ensures PcOf(tr[c], j).AsleepCond? && !Dozes(PcOf(tr[c + 1], j))
  {
    RunKeeps(n, steps);
    var tr' := TraceExists(Next, tr[|more|], later);
    TraceIsRun(tr[|more|], later, tr', |later|);
    assert later[..|later|] == later;
    SignalReaches(Run(Init(n), steps), k, more, tr, later, tr', i);
    c, j := |more| - 1, more[|more| - 1].j;
  }

  /** And no step of a signal touches more than one other thread. */
  lemma {:induction false} SignalMovesOne(n: nat, steps: seq<Step>, k: nat, more: seq<Step>, tr: seq<State>, c: nat) returns (j: nat)
    requires Returns(Run(Init(n), steps), k, Signal, more, tr) && c < |more| && more[c].Go? && more[c].k == k
    ensures forall i: nat :: i != k && i != j ==> PcOf(tr[c + 1], i) == PcOf(tr[c], i)
  {
    RunKeeps(n, steps);
    var s := Run(Init(n), steps);
    TellTrack(s, k, Signal, more, tr, c);
    CallInv(s, k, Signal, more, tr, c);
    j := more[c].j;
    assert Follows(Next, tr, more, c);
    TellMoves(tr[c], more[c], k);
  }

  lemma {:induction false} TellMoves(s: State, step: Step, k: nat)
    requires k < |s.pcs| && step.Go? && step.k == k && (s.pcs[k].Bump? || (s.pcs[k].Notify? && !s.pcs[k].all))
    ensures forall i: nat :: i != k && i != step.j ==> PcOf(Next(s, step), i) == PcOf(s, i)
  {
  }

  /** No step of any thread wakes two sleepers, so neither a signal nor a broadcast makes more than one run. */
  lemma {:induction false} WakesOne(s: State, step: Step, i: nat, j: nat)
    requires Dozes(PcOf(s, i)) && Dozes(PcOf(s, j)) && !Dozes(PcOf(Next(s, step), i)) && !Dozes(PcOf(Next(s, step), j))
    ensures i == j
  {
  }

  // ----- returning

  /** A sleeper the kernel can pick, if there is one. */
  lemma {:induction false} SomeSleeper(s: State, cond: bool) returns (j: nat)
    ensures if cond then NoneOnCond(s.pcs) || (j < |s.pcs| && s.pcs[j].AsleepCond?)
            else NoneOnLock(s.pcs) || (j < |s.pcs| && OnLock(s.pcs[j]))
  {
    j := 0;
    if cond && !NoneOnCond(s.pcs) {
      j :| 0 <= j < |s.pcs| && s.pcs[j].AsleepCond?;
    } else if !cond && !NoneOnLock(s.pcs) {
      j :| 0 <= j < |s.pcs| && OnLock(s.pcs[j]);
    }
  }

  /** What is still to be done in a call, when the mutex can be had. */
  function Left(p: Pc): nat {
    match p
    case Watch(_) => 4
    case WaitCond(_) => 4
    case TryLoad(_) => 3
    case TryOr(_) => 2
    case Mark => 1
    case Unlock(_) => 2
    case WakeLock(_) => 1
    case Bump(_, _) => 2
    case Notify(_, _, _) => 1
    case _ => 0
  }

  /** In `cond_wait`, without the mutex, and with no reason to wait any longer. */
  predicate Told(p: Pc, count: nat) {
    || ((p.Watch? || p.WaitCond?) && p.q != count)
    || ((p.TryLoad? || p.TryOr?) && p.why != Caller)
  }

  predicate Able(s: State, k: nat, call: Call) {
    k < |s.pcs|
    && match call
       case Lock => s.pcs[k].Out? || (Locking(s.pcs[k]) && Left(s.pcs[k]) > 0 && !s.word.locked) || s.pcs[k].In?
       case Release => s.pcs[k].In? || Releasing(s.pcs[k]) || s.pcs[k].Out?
       case CondWait => s.pcs[k].In? || s.pcs[k].Mark? || (Told(s.pcs[k], s.count) && !s.word.locked)
       case _ => Home(s.pcs[k]) || s.pcs[k].Bump? || s.pcs[k].Notify?
  }

  lemma {:induction false} AbleStep(s: State, k: nat, call: Call) returns (j: nat)
    requires Able(s, k, call) && !Home(s.pcs[k])
    ensures var s' := Next(s, Go(k, false, j)); Able(s', k, call) && Left(s'.pcs[k]) < Left(s.pcs[k])
  {
    j := SomeSleeper(s, s.pcs[k].Notify?);
  }

  lemma {:induction false} AbleReturns(s: State, k: nat, call: Call) returns (more: seq<Step>, tr: seq<State>)
    requires Able(s, k, call)
    ensures Trace(Next, s, more, tr) && |more| <= Left(s.pcs[k]) && (forall c :: 0 <= c < |more| ==> more[c].k == k)
    ensures (forall b :: 0 <= b < |more| ==> !Home(PcOf(tr[b], k)))
    ensures Home(PcOf(tr[|more|], k)) && Able(tr[|more|], k, call)
    decreases Left(s.pcs[k])
  {
    if Home(s.pcs[k]) {
      more, tr := [], [s];
    } else {
      var j := AbleStep(s, k, call);
      var step := Go(k, false, j);
      var rest, states := AbleReturns(Next(s, step), k, call);
      more, tr := [step] + rest, [s] + states;
      TracePrepend(Next, s, step, rest, states);
    }
  }

  /** A thread left alone returns from a signal, a broadcast or an unlock after at most three steps of its own, and
      from a lock too if the mutex is free. */
  lemma {:induction false} AloneReturns(n: nat, steps: seq<Step>, k: nat, call: Call) returns (more: seq<Step>, tr: seq<State>)
    requires var s := Run(Init(n), steps); k < |s.pcs| && Home(s.pcs[k])
    requires match call
             case Lock => Run(Init(n), steps).word == Word(false, false)
             case Release => Holder(Run(Init(n), steps), k)
             case CondWait => false
             case _ => true
    ensures Returns(Run(Init(n), steps), k, call, more, tr)
    ensures |more| <= 3 && forall c :: 0 <= c < |more| ==> more[c].k == k
  {
    var s := Run(Init(n), steps);
    RunKeeps(n, steps);
    assert call == Lock ==> !Holder(s, k);
    var s' := Next(s, Begin(k, call));
    assert Left(s'.pcs[k]) <= 3;
    more, tr := AbleReturns(s', k, call);
  }

  /** And a waiter for whom `seq` has moved, or who has been woken, gets back with the mutex if that is free. */
  lemma {:induction false} ToldReturns(n: nat, steps: seq<Step>, k: nat) returns (more: seq<Step>, tr: seq<State>)
    requires var s := Run(Init(n), steps); k < |s.pcs| && Told(s.pcs[k], s.count) && s.word == Word(false, false)
    ensures Trace(Next, Run(Init(n), steps), more, tr) && Holder(tr[|more|], k) && PcOf(tr[|more|], k).In?
    ensures |more| <= 4 && forall c :: 0 <= c < |more| ==> more[c].k == k
  {
    var s := Run(Init(n), steps);
    more, tr := AbleReturns(s, k, CondWait);
  }
}
