/** The futex mutex of `mutex.h` and the condition variable of `cond.h`, as a state machine over
    the accesses to the two words, with the kernel's sleepers. One mutex goes with one condition. */
module FutexLock {
  /** The two bits of the mutex word, LOCKED and SLEEPING. */
  datatype Word = Word(locked: bool, sleeping: bool)

  /** Why a thread takes the mutex: for its caller, or at the end of `cond_wait`, where the mutex is
      taken again after the spin loop saw `seq` move, or after the futex call. */
  datatype Why = Caller | Early | Late

  /** What follows an unlock: return, or go on in `cond_wait` with the sampled `seq`. */
  datatype Then = Leave | Sleep(q: nat)

  datatype Pc =
    | Out                            // does not hold the mutex
    | In                             // holds it
    // mutex_lock_default
    | TryLoad(why: Why)
    | TryOr(why: Why)
    | Exchange(why: Why)
    | Wait(why: Why)
    | AsleepLock(why: Why)           // in futex_wait on the mutex word
    // mutex_unlock_default
    | Unlock(then_: Then)
    | WakeLock(then_: Then)
    // cond_wait
    | Sample
    | Watch(q: nat)
    | WaitCond(q: nat)
    | AsleepCond(q: nat)           // in futex_wait on the condition word
    | Requeued                       // the same call, moved to the mutex word
    | Mark                           // holds the mutex again, and will set SLEEPING
    // cond_signal and cond_broadcast
    | Bump(held: bool, all: bool)
    | Notify(held: bool, all: bool, n: nat)

  /** `count` is `seq` of the condition variable; `done` is the highest value of it for which a broadcast has completed. */
  datatype State = State(word: Word, count: nat, pcs: seq<Pc>, done: nat)

  datatype Call = Lock | Release | CondWait | Signal | Broadcast

  datatype Step =
    | Begin(k: nat, call: Call)
    | Go(k: nat, again: bool, j: nat)     // `again`: spin once more; `j`: the sleeper the kernel picks
    | Spurious(k: nat)

  function At(s: State, k: nat, p: Pc): State
    requires k < |s.pcs|
  {
    s.(pcs := s.pcs[k := p])
  }

  /** The mutex is taken. */
  function Acquired(why: Why): Pc {
    if why == Late then Mark else In
  }

  function Released(t: Then): Pc {
    match t case Leave => Out case Sleep(q) => Watch(q)
  }

  predicate OnLock(p: Pc) {
    p.AsleepLock? || p.Requeued?
  }

  /** Where a thread goes on that is woken in a futex call. */
  function Awake(p: Pc): Pc {
    match p
    case AsleepLock(why) => Exchange(why)
    case AsleepCond(_) => TryLoad(Late)
    case Requeued => TryLoad(Late)
    case _ => p
  }

  ghost predicate NoneOnLock(pcs: seq<Pc>) {
    forall i :: 0 <= i < |pcs| ==> !OnLock(pcs[i])
  }

  ghost predicate NoneOnCond(pcs: seq<Pc>) {
    forall i :: 0 <= i < |pcs| ==> !pcs[i].AsleepCond?
  }

  /** `futex_requeue`: the picked sleeper wakes, the other sleepers move to the mutex word. */
  function Moved(pcs: seq<Pc>, j: nat): (r: seq<Pc>)
    ensures |r| == |pcs|
  {
    seq(|pcs|, i requires 0 <= i < |pcs| =>
      if !pcs[i].AsleepCond? then pcs[i] else if i == j then Awake(pcs[i]) else Requeued)
  }

  function Begun(p: Pc, call: Call): Pc {
    match call
    case Lock => if p.Out? then TryLoad(Caller) else p
    case Release => if p.In? then Unlock(Leave) else p
    case CondWait => if p.In? then Sample else p
    case Signal => if p.In? || p.Out? then Bump(p.In?, false) else p
    case Broadcast => if p.In? || p.Out? then Bump(p.In?, true) else p
  }

  /** The next access of thread `k`. A wake-up needs a sleeper to pick, if there is one. */
  ghost function Access(s: State, k: nat, again: bool, j: nat): State
    requires k < |s.pcs|
  {
    match s.pcs[k]
    case TryLoad(why) =>
      At(s, k, if !s.word.locked then TryOr(why) else if again then TryLoad(why) else Exchange(why))
    case TryOr(why) =>
      At(s, k, if !s.word.locked then Acquired(why) else if again then TryLoad(why) else Exchange(why))
        .(word := s.word.(locked := true))
    case Exchange(why) =>
      At(s, k, if s.word.locked then Wait(why) else Acquired(why)).(word := Word(true, true))
    case Wait(why) => At(s, k, if s.word == Word(true, true) then AsleepLock(why) else Exchange(why))
    case Unlock(t) => At(s, k, if s.word.sleeping then WakeLock(t) else Released(t)).(word := Word(false, false))
    case WakeLock(t) =>
      if j < |s.pcs| && OnLock(s.pcs[j]) then At(At(s, j, Awake(s.pcs[j])), k, Released(t))
      else if NoneOnLock(s.pcs) then At(s, k, Released(t)) else s
    case Sample => At(s, k, Unlock(Sleep(s.count)))
    case Watch(q) => At(s, k, if s.count != q then TryLoad(Early) else if again then Watch(q) else WaitCond(q))
    case WaitCond(q) => At(s, k, if s.count == q then AsleepCond(q) else TryLoad(Late))
    case Mark => At(s, k, In).(word := s.word.(sleeping := true))
    case Bump(held, all) => At(s, k, Notify(held, all, s.count + 1)).(count := s.count + 1)
    case Notify(held, all, n) =>
      var p := if held then In else Out;
      if j < |s.pcs| && s.pcs[j].AsleepCond? then
        if all then At(s.(pcs := Moved(s.pcs, j), done := if n > s.done then n else s.done), k, p)
        else At(At(s, j, Awake(s.pcs[j])), k, p)
      else if NoneOnCond(s.pcs) then At(s, k, p).(done := if all && n > s.done then n else s.done)
      else s
    case _ => s
  }

  ghost function Next(s: State, step: Step): State {
    if step.k >= |s.pcs| then s
    else
      match step
      case Begin(k, call) => At(s, k, Begun(s.pcs[k], call))
      case Go(k, again, j) => Access(s, k, again, j)
      case Spurious(k) => At(s, k, Awake(s.pcs[k]))
  }

  ghost function Run(s: State, steps: seq<Step>): State {
    if steps == [] then s else Next(Run(s, steps[..|steps| - 1]), steps[|steps| - 1])
  }

  function Init(n: nat): State {
    State(Word(false, false), 0, seq(n, _ => Out), 0)
  }

  // ----- what every state satisfies

  predicate Holds(p: Pc) {
    p.In? || p.Mark? || p.Sample? || p.Unlock? || (p.Bump? && p.held) || (p.Notify? && p.held)
  }

  ghost predicate Holder(s: State, k: nat) {
    k < |s.pcs| && Holds(s.pcs[k])
  }

  /** The word is 0, LOCKED or LOCKED|SLEEPING, and locked exactly when one thread holds the mutex. */
  ghost predicate Exclusive(s: State) {
    && (s.word.sleeping ==> s.word.locked)
    && (s.word.locked <==> exists k :: Holder(s, k))
    && (forall j, k :: Holder(s, j) && Holder(s, k) ==> j == k)
  }

  /** A thread that owes a wake-up on the mutex word, or will yet leave SLEEPING in it. */
  predicate Carries(p: Pc) {
    || p.WakeLock?
    || p.Exchange? || p.Wait?
    || (p.TryLoad? && p.why == Late)
    || (p.TryOr? && p.why == Late)
    || p.Mark?
  }

  ghost predicate Carrier(s: State, k: nat) {
    k < |s.pcs| && Carries(s.pcs[k])
  }

  /** Whoever sleeps on the mutex word has a holder who will wake somebody, or a thread under way to see to it. */
  ghost predicate Chain(s: State) {
    NoneOnLock(s.pcs) || s.word == Word(true, true) || exists k :: Carrier(s, k)
  }

  /** Nobody still sleeps on the condition who sampled `seq` before a completed broadcast. */
  ghost predicate Broadcasts(s: State) {
    && s.done <= s.count
    && (forall k :: 0 <= k < |s.pcs| && s.pcs[k].AsleepCond? ==> s.done <= s.pcs[k].q)
    && (forall k :: 0 <= k < |s.pcs| && s.pcs[k].Notify? ==> s.pcs[k].n <= s.count)
  }

  ghost predicate Inv(s: State) {
    Exclusive(s) && Chain(s) && Broadcasts(s)
  }

  // ----- every step keeps it

  lemma {:induction false} InitKeeps(n: nat)
    ensures Inv(Init(n))
  {
    assert !exists k :: Holder(Init(n), k);
  }

  /** Thread `k` goes on without taking or giving back the mutex. */
  lemma {:induction false} ExclusiveSame(s: State, s': State)
    requires Exclusive(s) && s'.word.locked == s.word.locked && |s'.pcs| == |s.pcs|
    requires s'.word.sleeping ==> s'.word.locked
    requires forall i :: 0 <= i < |s.pcs| ==> Holds(s'.pcs[i]) == Holds(s.pcs[i])
    ensures Exclusive(s')
  {
    assert forall i :: Holder(s', i) == Holder(s, i);
  }

  lemma {:induction false} Acquires(s: State, s': State, k: nat)
    requires Exclusive(s) && !s.word.locked && s'.word.locked && k < |s.pcs| == |s'.pcs| && Holds(s'.pcs[k])
    requires forall i :: 0 <= i < |s.pcs| && i != k ==> s'.pcs[i] == s.pcs[i]
    ensures Exclusive(s')
  {
    assert Holder(s', k);
    forall i: nat | Holder(s', i) ensures i == k {
      assert i == k || Holder(s, i);
    }
  }

  lemma {:induction false} Releases(s: State, s': State, k: nat)
    requires Exclusive(s) && s'.word == Word(false, false) && k < |s.pcs| == |s'.pcs| && Holds(s.pcs[k]) && !Holds(s'.pcs[k])
    requires forall i :: 0 <= i < |s.pcs| && i != k ==> s'.pcs[i] == s.pcs[i]
    ensures Exclusive(s')
  {
    assert Holder(s, k);
    forall i: nat ensures !Holder(s', i) {
      assert Holder(s', i) ==> Holder(s, i);
    }
  }

  /** The accesses that wake nobody change only where thread `k` stands. */
  lemma {:induction false} Alone(s: State, k: nat, again: bool, j: nat)
    requires k < |s.pcs| && !s.pcs[k].WakeLock? && !s.pcs[k].Notify?
    ensures var s' := Access(s, k, again, j);
      && |s'.pcs| == |s.pcs| && s'.pcs == s.pcs[k := s'.pcs[k]] && s'.done == s.done && s.count <= s'.count
  {
  }

  lemma {:induction false} AloneHolders(s: State, k: nat, again: bool, j: nat)
    requires k < |s.pcs| && !s.pcs[k].WakeLock? && !s.pcs[k].Notify? && !s.pcs[k].Unlock?
    requires Holds(s.pcs[k]) ==> s.word.locked
    requires s.word.locked || !(s.pcs[k].TryOr? || s.pcs[k].Exchange?)
    requires s.word.sleeping ==> s.word.locked
    ensures var s' := Access(s, k, again, j);
      s'.word.locked == s.word.locked && (s'.word.sleeping ==> s'.word.locked) && Holds(s'.pcs[k]) == Holds(s.pcs[k])
  {
  }

  lemma {:induction false} WakeHolders(s: State, k: nat, again: bool, j: nat)
    requires k < |s.pcs| && (s.pcs[k].WakeLock? || s.pcs[k].Notify?)
    ensures var s' := Access(s, k, again, j);
      |s'.pcs| == |s.pcs| && s'.word == s.word && forall i :: 0 <= i < |s.pcs| ==> Holds(s'.pcs[i]) == Holds(s.pcs[i])
  {
  }

  lemma {:induction false} OtherHolders(s: State, k: nat, again: bool, j: nat)
    requires Exclusive(s) && k < |s.pcs| && !s.pcs[k].Unlock?
    requires s.word.locked || !(s.pcs[k].TryOr? || s.pcs[k].Exchange?)
    ensures var s' := Access(s, k, again, j);
      && |s'.pcs| == |s.pcs| && s'.word.locked == s.word.locked && (s'.word.sleeping ==> s'.word.locked)
      && forall i :: 0 <= i < |s.pcs| ==> Holds(s'.pcs[i]) == Holds(s.pcs[i])
  {
    if s.pcs[k].WakeLock? || s.pcs[k].Notify? {
      WakeHolders(s, k, again, j);
    } else {
      assert Holds(s.pcs[k]) ==> Holder(s, k);
      Alone(s, k, again, j);
      AloneHolders(s, k, again, j);
    }
  }

  lemma {:induction false} StepExclusive(s: State, step: Step)
    requires Exclusive(s)
    ensures Exclusive(Next(s, step))
  {
    var s', k := Next(s, step), step.k;
    if k < |s.pcs| && step.Go? {
      var p := s.pcs[k];
      if (p.TryOr? || p.Exchange?) && !s.word.locked {
        Acquires(s, s', k);
      } else if p.Unlock? {
        Releases(s, s', k);
      } else {
        OtherHolders(s, k, step.again, step.j);
        ExclusiveSame(s, s');
      }
    } else {
      ExclusiveSame(s, s');
    }
  }

  /** The chain is kept by a step after which no thread is newly asleep on the mutex word, the word is as
      it was, and whoever carried the chain still does or has woken somebody who does. */
  lemma {:induction false} ChainSame(s: State, s': State, k: nat)
    requires Chain(s) && s'.word == s.word && k < |s.pcs| == |s'.pcs|
    requires forall i :: 0 <= i < |s.pcs| && i != k ==> (OnLock(s'.pcs[i]) ==> OnLock(s.pcs[i])) && (Carries(s.pcs[i]) ==> Carries(s'.pcs[i]))
    requires OnLock(s'.pcs[k]) ==> OnLock(s.pcs[k])
    requires Carries(s.pcs[k]) ==> exists i :: Carrier(s', i)
    ensures Chain(s')
  {
    if exists i :: Carrier(s, i) {
      var i :| Carrier(s, i);
      if i != k {
        assert Carrier(s', i);
      }
    }
  }

  lemma {:induction false} StepChain(s: State, step: Step)
    requires Chain(s) && Exclusive(s)
    ensures Chain(Next(s, step))
  {
    var s', k := Next(s, step), step.k;
    if k < |s.pcs| && s' != s {
      var p := s.pcs[k];
      if step.Go? && (p.WakeLock? || p.Notify?) {
        WakeChain(s, step);
      } else if step.Go? && (p.TryOr? || p.Exchange? || p.Unlock? || p.Mark? || p.Wait?) {
        WordChain(s, step);
      } else {
        assert Carries(s'.pcs[k]) == Carrier(s', k);
        ChainSame(s, s', k);
      }
    }
  }

  lemma {:induction false} WordChain(s: State, step: Step)
    requires Chain(s) && Exclusive(s) && step.k < |s.pcs| && step.Go?
    requires var p := s.pcs[step.k]; p.TryOr? || p.Exchange? || p.Unlock? || p.Mark? || p.Wait?
    ensures Chain(Next(s, step))
  {
    var s', k, p := Next(s, step), step.k, s.pcs[step.k];
    assert Holder(s, k) == Holds(p) && Carrier(s', k) == Carries(s'.pcs[k]);
    if exists i :: Carrier(s, i) {
      var i :| Carrier(s, i);
      assert i != k ==> Carrier(s', i);
    }
  }

  lemma {:induction false} WakeChain(s: State, step: Step)
    requires Chain(s) && step.k < |s.pcs| && step.Go? && (s.pcs[step.k].WakeLock? || s.pcs[step.k].Notify?)
    ensures Chain(Next(s, step))
  {
    var s', k, j := Next(s, step), step.k, step.j;
    if s' != s {
      if j < |s.pcs| {
        assert Carrier(s', j) == Carries(s'.pcs[j]);
      }
      if exists i :: Carrier(s, i) {
        var i :| Carrier(s, i);
        assert i != k ==> Carrier(s', i);
      }
    }
  }

  lemma {:induction false} NotifyBroadcasts(s: State, k: nat, again: bool, j: nat)
    requires Broadcasts(s) && k < |s.pcs| && s.pcs[k].Notify?
    ensures Broadcasts(Access(s, k, again, j)) && s.done <= Access(s, k, again, j).done
  {
  }

  lemma {:induction false} AloneBroadcasts(s: State, k: nat, again: bool, j: nat)
    requires Broadcasts(s) && k < |s.pcs| && !s.pcs[k].WakeLock? && !s.pcs[k].Notify?
    ensures Broadcasts(Access(s, k, again, j)) && s.done <= Access(s, k, again, j).done
  {
    Alone(s, k, again, j);
  }

  lemma {:induction false} StepBroadcasts(s: State, step: Step)
    requires Broadcasts(s)
    ensures Broadcasts(Next(s, step)) && s.done <= Next(s, step).done
  {
    var k := step.k;
    if k < |s.pcs| && step.Go? {
      if s.pcs[k].Notify? {
        NotifyBroadcasts(s, k, step.again, step.j);
      } else if !s.pcs[k].WakeLock? {
        AloneBroadcasts(s, k, step.again, step.j);
      }
    }
  }

  lemma {:induction false} StepKeeps(s: State, step: Step)
    requires Inv(s)
    ensures Inv(Next(s, step)) && |Next(s, step).pcs| == |s.pcs| && s.done <= Next(s, step).done
  {
    StepExclusive(s, step);
    StepChain(s, step);
    StepBroadcasts(s, step);
  }

  lemma {:induction false} RunKeeps(n: nat, steps: seq<Step>)
    ensures Inv(Run(Init(n), steps)) && |Run(Init(n), steps).pcs| == n
    decreases |steps|
  {
    if steps == [] {
      InitKeeps(n);
    } else {
      RunKeeps(n, steps[..|steps| - 1]);
      StepKeeps(Run(Init(n), steps[..|steps| - 1]), steps[|steps| - 1]);
    }
  }

  // ----- what this means for its users

  /** At most one thread holds the mutex, its word takes three values, and it is locked exactly when it is held. */
  lemma {:induction false} MutualExclusion(n: nat, steps: seq<Step>, i: nat, j: nat)
    requires var s := Run(Init(n), steps); Holder(s, i) && Holder(s, j)
    ensures i == j && Run(Init(n), steps).word in {Word(true, false), Word(true, true)}
  {
    RunKeeps(n, steps);
  }

  /** Somebody asleep on the mutex word is never left behind: some other thread, awake, holds the mutex with
      SLEEPING in the word, or owes a wake-up, or is on its way to leave SLEEPING in the word. */
  lemma {:induction false} SleeperHasHelper(n: nat, steps: seq<Step>, i: nat) returns (k: nat)
    requires var s := Run(Init(n), steps); i < |s.pcs| && OnLock(s.pcs[i])
    ensures var s := Run(Init(n), steps);
      && k < |s.pcs| && !OnLock(s.pcs[k]) && !s.pcs[k].AsleepCond?
      && ((Holds(s.pcs[k]) && s.word == Word(true, true)) || Carries(s.pcs[k]))
  {
    var s := Run(Init(n), steps);
    RunKeeps(n, steps);
    if s.word == Word(true, true) {
      k :| Holder(s, k);
    } else {
      k :| Carrier(s, k);
    }
  }

  /** When the mutex is free and nobody is in the middle of a call, nobody sleeps on the mutex word. */
  lemma {:induction false} NobodyStranded(n: nat, steps: seq<Step>)
    requires var s := Run(Init(n), steps);
      !s.word.locked && forall k :: 0 <= k < |s.pcs| ==> s.pcs[k].Out? || OnLock(s.pcs[k]) || s.pcs[k].AsleepCond?
    ensures NoneOnLock(Run(Init(n), steps).pcs)
  {
    RunKeeps(n, steps);
  }

  // ----- what falls asleep on the condition word

  /** Nobody falls asleep on the condition word with a `seq` sampled before the current one. */
  lemma {:induction false} StaleStep(s: State, step: Step, i: nat, m: nat)
    requires i < |s.pcs| == |Next(s, step).pcs| && m <= s.count
    requires var p := Next(s, step).pcs[i]; p.AsleepCond? && p.q < m
    ensures s.pcs[i] == Next(s, step).pcs[i]
  {
    if step.k < |s.pcs| && step.Go? && !s.pcs[step.k].WakeLock? && !s.pcs[step.k].Notify? {
      Alone(s, step.k, step.again, step.j);
    }
  }

  lemma {:induction false} CountGrows(s: State, step: Step)
    ensures s.count <= Next(s, step).count
  {
  }
}
