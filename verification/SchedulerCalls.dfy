/** What a worker has to do before it looks at `done`, and that every worker gets out once `done` is set. */
module SchedulerCalls {
  import opened Options
  import opened Scheduler
  import opened SchedulerRuns
  import opened Traces
  import D = Deque
  import R = DequeRuns
  import C = DequeCalls

  /** The next access of worker `k`, if there is one. */
  function Go(s: State, k: nat): State {
    if k < |s.ws| == |s.qs| == |s.ran| then Next(s, k) else s
  }

  function WorkerOf(s: State, k: nat): Worker {
    if k < |s.ws| then s.ws[k] else Lost
  }

  /** Some run on deques the main thread has filled leads to this state. */
  ghost predicate Reached(qs: seq<D.State>, s: State) {
    && (forall l :: 0 <= l < |qs| ==> Filled(qs[l], |qs|))
    && exists steps :: s == Run(Init(qs), steps)
  }

  lemma {:induction false} ReachedStep(qs: seq<D.State>, s: State, k: nat)
    requires Reached(qs, s)
    ensures Reached(qs, Go(s, k))
  {
    var steps :| s == Run(Init(qs), steps);
    RunSnoc(qs, steps, k);
  }

  lemma {:induction false} RunSnoc(qs: seq<D.State>, steps: seq<nat>, k: nat)
    ensures Run(Init(qs), steps + [k]) == Go(Run(Init(qs), steps), k)
  {
    assert (steps + [k])[..|steps|] == steps;
  }

  lemma {:induction false} ReachedFrom(qs: seq<D.State>, s: State)
    requires Reached(qs, s)
    ensures From(qs, s)
  {
    var steps :| s == Run(Init(qs), steps);
    RunFrom(qs, steps);
  }

  lemma {:induction false} TraceReached(qs: seq<D.State>, s: State, more: seq<nat>, tr: seq<State>, c: nat)
    requires Reached(qs, s) && Trace(Go, s, more, tr) && c <= |more|
    ensures Reached(qs, tr[c])
  {
    if c > 0 {
      TraceReached(qs, s, more, tr, c - 1);
      assert Follows(Go, tr, more, c - 1);
      ReachedStep(qs, tr[c - 1], more[c - 1]);
    }
  }

  // ----- a worker tries every deque

  /** Deque `j` answers Empty in the step from `s` to `r`. */
  ghost predicate SaysEmpty(s: State, r: State, j: nat) {
    j < |s.qs| && j < |r.qs| && r.qs[j].out == s.qs[j].out + [D.Empty]
  }

  /** Before state `c` a step of worker `k` has made deque `j` answer Empty. */
  ghost predicate Tried(more: seq<nat>, tr: seq<State>, k: nat, j: nat, c: nat)
    requires |tr| == |more| + 1
  {
    exists b :: 0 <= b < c && b < |more| && more[b] == k && SaysEmpty(tr[b], tr[b + 1], j)
  }

  /** How far a worker has got in its search. */
  function Searched(w: Worker, n: nat): nat {
    match w
    case Scan(i) => i
    case Stealing(i) => i
    case Check => n
    case _ => 0
  }

  predicate Searches(w: Worker) {
    w.Scan? || w.Stealing? || w.Check?
  }

  /** A worker that has found nothing yet has tried its own deque, and those before the one it is at. */
  ghost predicate TriedSo(more: seq<nat>, tr: seq<State>, k: nat, n: nat, c: nat)
    requires |tr| == |more| + 1 && c <= |more|
  {
    var w := WorkerOf(tr[c], k);
    Searches(w) ==> Tried(more, tr, k, k, c) && forall j :: 0 <= j < n && j < Searched(w, n) ==> Tried(more, tr, k, j, c)
  }

  /** A step of worker `k` from one place in its search to the next. */
  ghost predicate SearchGoes(s: State, r: State, k: nat, n: nat) {
    var w, w' := WorkerOf(s, k), WorkerOf(r, k);
    Searches(w') ==>
      if w.Taking? then w' == Scan(0) && SaysEmpty(s, r, k)
      else
        && Searches(w)
        && (|| Searched(w', n) <= Searched(w, n)
            || (Searched(w', n) == Searched(w, n) + 1 && (Searched(w, n) == k || SaysEmpty(s, r, Searched(w, n))))
            || (w'.Check? && Searched(w, n) >= n))
  }

  lemma {:induction false} TookGoes(s: State, s': State, k: nat, q: D.State)
    requires k < |s.ws| == |s.qs| && s.ws[k].Taking? && s' == AfterTake(s, k, q)
    requires q.owner.Idle? ==> q.out == s.qs[k].out + [Answered(q)]
    ensures SearchGoes(s, s', k, |s.qs|)
  {
  }

  lemma {:induction false} StoleGoes(s: State, s': State, k: nat, i: nat, q: D.State)
    requires k < |s.ws| == |s.qs| && s.ws[k] == Stealing(i) && i < |s.qs| && s' == AfterSteal(s, k, i, q)
    requires k < |q.thieves| && (q.thieves[k].Away? ==> q.out == s.qs[i].out + [Answered(q)])
    ensures SearchGoes(s, s', k, |s.qs|)
  {
  }

  lemma {:induction false} TakingGoes(s: State, k: nat)
    requires Inv(s) && k < |s.ws| && s.ws[k].Taking?
    ensures SearchGoes(s, Go(s, k), k, |s.qs|)
  {
    assert QueueOk(s, k) && D.Inv(s.qs[k]);
    OwnerShape(s.qs[k]);
    NextTake(s, k);
    TookGoes(s, Go(s, k), k, D.Next(s.qs[k], D.OwnerMove));
  }

  lemma {:induction false} StealingGoes(s: State, k: nat, i: nat)
    requires Sized(s) && k < |s.ws| && s.ws[k] == Stealing(i) && i < |s.qs| && QueueOk(s, i)
    ensures SearchGoes(s, Go(s, k), k, |s.qs|)
  {
    ThiefShape(s.qs[i], k);
    NextSteal(s, k, i);
    StoleGoes(s, Go(s, k), k, i, D.Next(s.qs[i], D.ThiefMove(k)));
  }

  lemma {:induction false} PlainGoes(s: State, k: nat)
    requires Sized(s) && k < |s.ws| && !s.ws[k].Taking? && !s.ws[k].Stealing?
    ensures SearchGoes(s, Go(s, k), k, |s.qs|)
  {
  }

  lemma {:induction false} OwnGoes(s: State, k: nat)
    requires Inv(s) && k < |s.ws|
    ensures SearchGoes(s, Go(s, k), k, |s.qs|)
  {
    if s.ws[k].Taking? {
      TakingGoes(s, k);
    } else if s.ws[k].Stealing? {
      assert WorkerOk(s.ws[k], k, |s.qs|) && QueueOk(s, s.ws[k].i);
      StealingGoes(s, k, s.ws[k].i);
    } else {
      PlainGoes(s, k);
    }
  }

  lemma {:induction false} OthersGo(s: State, l: nat, k: nat)
    requires l != k
    ensures WorkerOf(Go(s, l), k) == WorkerOf(s, k)
  {
  }

  lemma {:induction false} TriedLater(more: seq<nat>, tr: seq<State>, k: nat, j: nat, c: nat)
    requires |tr| == |more| + 1 && Tried(more, tr, k, j, c)
    ensures Tried(more, tr, k, j, c + 1)
  {
  }

  lemma {:induction false} TriedNow(more: seq<nat>, tr: seq<State>, k: nat, j: nat, c: nat)
    requires |tr| == |more| + 1 && c < |more| && more[c] == k && SaysEmpty(tr[c], tr[c + 1], j)
    ensures Tried(more, tr, k, j, c + 1)
  {
  }

  lemma {:induction false} TriedOn(more: seq<nat>, tr: seq<State>, k: nat, n: nat, c: nat)
    requires |tr| == |more| + 1 && c < |more| && TriedSo(more, tr, k, n, c)
    requires if more[c] == k then SearchGoes(tr[c], tr[c + 1], k, n) else WorkerOf(tr[c + 1], k) == WorkerOf(tr[c], k)
    ensures TriedSo(more, tr, k, n, c + 1)
  {
    var w, w' := WorkerOf(tr[c], k), WorkerOf(tr[c + 1], k);
    if Searches(w') {
      if w.Taking? {
        TriedNow(more, tr, k, k, c);
      } else {
        TriedLater(more, tr, k, k, c);
        var d := c + 1;
        forall j | 0 <= j < n && j < Searched(w', n) ensures Tried(more, tr, k, j, d) {
          if j < Searched(w, n) {
            TriedLater(more, tr, k, j, c);
          } else if j != k {
            TriedNow(more, tr, k, j, c);
          }
        }
      }
    }
  }

  lemma {:induction false} TriedTrack(qs: seq<D.State>, s: State, k: nat, more: seq<nat>, tr: seq<State>, c: nat)
    requires Reached(qs, s) && k < |qs| && !Searches(WorkerOf(s, k)) && Trace(Go, s, more, tr) && c <= |more|
    ensures TriedSo(more, tr, k, |qs|, c)
  {
    if c > 0 {
      TriedTrack(qs, s, k, more, tr, c - 1);
      TraceReached(qs, s, more, tr, c - 1);
      assert Follows(Go, tr, more, c - 1);
      GoesOn(qs, tr[c - 1], more[c - 1], k);
      TriedOn(more, tr, k, |qs|, c - 1);
    }
  }

  lemma {:induction false} GoesOn(qs: seq<D.State>, s: State, l: nat, k: nat)
    requires Reached(qs, s) && k < |qs|
    ensures if l == k then SearchGoes(s, Go(s, k), k, |qs|) else WorkerOf(Go(s, l), k) == WorkerOf(s, k)
  {
    ReachedFrom(qs, s);
    if l == k {
      OwnGoes(s, k);
    } else {
      OthersGo(s, l, k);
    }
  }

  /** A worker looks at `done` only after every deque, its own and all others, has answered a take or steal of its with
      Empty since the worker last was at the top of its loop. */
  lemma {:induction false} TriesAll(qs: seq<D.State>, steps: seq<nat>, k: nat, more: seq<nat>, tr: seq<State>, j: nat)
    requires (forall l :: 0 <= l < |qs| ==> Filled(qs[l], |qs|)) && j < |qs| && k < |qs|
    requires WorkerOf(Run(Init(qs), steps), k) == Loop && Trace(Go, Run(Init(qs), steps), more, tr)
    requires WorkerOf(tr[|more|], k) == Check
    ensures Tried(more, tr, k, j, |more|)
  {
    assert Reached(qs, Run(Init(qs), steps));
    TriedTrack(qs, Run(Init(qs), steps), k, more, tr, |more|);
  }

  // ----- after `done` has been set

  /** Nothing is left in the deque, so `top` has come up to what the owner may still claim. */
  lemma {:induction false} NothingLeft(q: D.State)
    requires D.Core(q) && Emptied(q)
    ensures q.top == D.Limit(q) && q.bottom <= q.top
  {
  }

  lemma {:induction false} TopStays(q: D.State, step: D.Step)
    requires D.Core(q) && q.top == D.Limit(q)
    ensures D.Next(q, step).top == q.top
  {
    if step.ThiefMove? && step.k < |q.thieves| {
      assert D.ThiefOk(q, q.thieves[step.k]);
    }
  }

  /** The steps worker `k` has left from deque `i` of `n` on, when all are empty. */
  function ScanLeft(i: nat, n: nat): nat {
    12 * C.Gap(i, n) + 2
  }

  /** The steps worker `k` has left when all deques are empty and `done` is set. */
  function WorkerLeft(s: State, k: nat): nat
    requires k < |s.ws| == |s.qs|
  {
    var n := |s.qs|;
    match s.ws[k]
    case Loop => 8 + ScanLeft(0, n)
    case Taking => 1 + C.OwnerLeft(s.qs[k]) + ScanLeft(0, n)
    case Scan(i) => ScanLeft(i, n)
    case Stealing(i) => ScanLeft(i + 1, n) + if i < n then StealLeft(C.ThiefOf(s.qs[i], k), s.qs[i].top) else 0
    case Check => 1
    case _ => 0
  }

  /** A thief that has loaded an old `top` has to try once more. */
  function StealLeft(th: D.Thief, top: nat): nat {
    C.ThiefLeft(th) + if !th.Away? && th.t != top then 12 else 0
  }

  /** What a reached state is like in which `done` is set. */
  ghost predicate Over(s: State) {
    Inv(s) && s.done && Finished(s)
  }

  lemma {:induction false} DoneOver(qs: seq<D.State>, s: State)
    requires Reached(qs, s) && s.done
    ensures Over(s) && |s.ws| == |s.qs| == |s.ran| == |qs|
  {
    ReachedFrom(qs, s);
    DoneFinished(s);
  }

  lemma {:induction false} EmptyAt(s: State, j: nat)
    requires Over(s) && j < |s.qs|
    ensures D.Core(s.qs[j]) && s.qs[j].top == D.Limit(s.qs[j]) && s.qs[j].bottom <= s.qs[j].top && QueueOk(s, j)
  {
    assert D.Inv(s.qs[j]) && QueueOk(s, j) && Emptied(s.qs[j]);
    NothingLeft(s.qs[j]);
  }

  /** A take of an empty deque goes on, or answers Empty. */
  lemma {:induction false} TakeLeft(s: State, s': State, k: nat)
    requires |s.ws| == |s.qs| && k < |s.ws| && s.ws[k].Taking? && D.Core(s.qs[k]) && InTake(s.qs[k].owner)
    requires s' == AfterTake(s, k, D.Next(s.qs[k], D.OwnerMove)) && !s'.ws[k].Print? && !s'.ws[k].Lost?
    ensures WorkerLeft(s', k) < WorkerLeft(s, k)
  {
    C.OwnerGoesOn(s.qs[k]);
  }

  /** A thief on an empty deque goes on, gets Empty, or, if what it has loaded from `top` is old, Abort. */
  lemma {:induction false} ThiefGoes(q: D.State, k: nat)
    requires D.Core(q) && q.top == D.Limit(q) && q.bottom <= q.top && k < |q.thieves| && !q.thieves[k].Away?
    ensures var q', th := D.Next(q, D.ThiefMove(k)), q.thieves[k];
      && k < |q'.thieves| && q'.top == q.top
      && if q'.thieves[k].Away? then Answered(q') == D.Empty || (Answered(q') == D.Abort && th.t != q.top)
         else C.ThiefLeft(q'.thieves[k]) < C.ThiefLeft(th) && q'.thieves[k].t == th.t
  {
    assert D.ThiefOk(q, q.thieves[k]);
  }

  lemma {:induction false} StealLower(s: State, s': State, k: nat, i: nat)
    requires |s.ws| == |s.qs| && k < |s.ws| && s.ws[k] == Stealing(i) && i < |s.qs| && k < |s.qs[i].thieves|
    requires D.Core(s.qs[i]) && s.qs[i].top == D.Limit(s.qs[i]) && s.qs[i].bottom <= s.qs[i].top && !s.qs[i].thieves[k].Away?
    requires s' == AfterSteal(s, k, i, D.Next(s.qs[i], D.ThiefMove(k)))
    ensures WorkerLeft(s', k) < WorkerLeft(s, k)
  {
    ThiefGoes(s.qs[i], k);
  }

  lemma {:induction false} PlainLower(s: State, k: nat)
    requires Sized(s) && k < |s.ws| && s.done && Handless(s.ws[k]) && !s.ws[k].Taking? && !s.ws[k].Stealing? && !s.ws[k].Exited?
    requires s.ws[k].Loop? ==> s.qs[k].owner.Idle?
    requires s.ws[k].Scan? && s.ws[k].i < |s.qs| ==> C.ThiefOf(s.qs[s.ws[k].i], k).Away? && k < |s.qs[s.ws[k].i].thieves|
    ensures WorkerLeft(Go(s, k), k) < WorkerLeft(s, k)
  {
  }

  lemma {:induction false} OwnLower(qs: seq<D.State>, s: State, k: nat)
    requires Reached(qs, s) && s.done && k < |qs| && !WorkerOf(s, k).Exited?
    ensures |s.ws| == |s.qs| == |s.ran| == |qs| && WorkerLeft(Go(s, k), k) < WorkerLeft(s, k)
  {
    DoneOver(qs, s);
    StillDone(qs, s, k);
    EmptyAt(s, k);
    assert Handless(s.ws[k]) && WorkerOk(s.ws[k], k, |s.qs|);
    if s.ws[k].Taking? {
      NextTake(s, k);
      TakeLeft(s, Go(s, k), k);
    } else if s.ws[k].Stealing? {
      EmptyAt(s, s.ws[k].i);
      NextSteal(s, k, s.ws[k].i);
      StealLower(s, Go(s, k), k, s.ws[k].i);
    } else {
      if s.ws[k].Scan? && s.ws[k].i < |s.qs| { EmptyAt(s, s.ws[k].i); }
      PlainLower(s, k);
    }
  }

  /** `done` stays, and afterwards nobody is handed anything. */
  lemma {:induction false} StillDone(qs: seq<D.State>, s: State, k: nat)
    requires Reached(qs, s) && s.done && k < |qs|
    ensures Go(s, k).done && |Go(s, k).ws| == |qs| && Handless(Go(s, k).ws[k]) && !Go(s, k).ws[k].Lost?
  {
    ReachedStep(qs, s, k);
    StaysDone(s, k);
    DoneOver(qs, Go(s, k));
    assert Handless(Go(s, k).ws[k]) && WorkerOk(Go(s, k).ws[k], k, |qs|);
  }

  lemma {:induction false} StaysDone(s: State, k: nat)
    requires s.done
    ensures Go(s, k).done
  {
  }

  lemma {:induction false} SameLeft(s: State, s': State, l: nat)
    requires l < |s.ws| == |s.qs| == |s'.ws| == |s'.qs| && s'.ws[l] == s.ws[l]
    requires s.ws[l].Taking? ==> s'.qs[l].owner == s.qs[l].owner && C.OwnerLeft(s'.qs[l]) == C.OwnerLeft(s.qs[l])
    requires s.ws[l].Stealing? && s.ws[l].i < |s.qs| ==>
      s'.qs[s.ws[l].i].top == s.qs[s.ws[l].i].top && C.ThiefOf(s'.qs[s.ws[l].i], l) == C.ThiefOf(s.qs[s.ws[l].i], l)
    ensures WorkerLeft(s', l) == WorkerLeft(s, l)
  {
  }

  /** In a take the steps left do not depend on anything but how far it has come. */
  lemma {:induction false} TakeLeftSame(q: D.State, q': D.State)
    requires InTake(q.owner) && q'.owner == q.owner
    ensures C.OwnerLeft(q') == C.OwnerLeft(q)
  {
  }

  lemma {:induction false} OthersLeft(qs: seq<D.State>, s: State, k: nat, l: nat)
    requires Reached(qs, s) && s.done && k < |qs| && l < |qs| && l != k
    ensures |s.ws| == |s.qs| == |s.ran| == |qs| && WorkerLeft(Go(s, k), l) == WorkerLeft(s, l)
  {
    DoneOver(qs, s);
    OthersGo(s, k, l);
    if s.ws[l].Taking? {
      EmptyAt(s, l);
      OtherDeque(s, k, l, l);
      TakeLeftSame(s.qs[l], Go(s, k).qs[l]);
    } else if s.ws[l].Stealing? && s.ws[l].i < |s.qs| {
      EmptyAt(s, s.ws[l].i);
      OtherDeque(s, k, l, s.ws[l].i);
    }
    SameLeft(s, Go(s, k), l);
  }

  /** What worker `k` does to deque `j` leaves the part of worker `l` in it alone. */
  lemma {:induction false} OtherDeque(s: State, k: nat, l: nat, j: nat)
    requires Sized(s) && k < |s.ws| && l < |s.ws| && l != k && j < |s.qs| && D.Core(s.qs[j]) && s.qs[j].top == D.Limit(s.qs[j])
    ensures var q, q' := s.qs[j], Go(s, k).qs[j];
      q'.top == q.top && C.ThiefOf(q', l) == C.ThiefOf(q, l) && (j == l ==> q'.owner == q.owner)
  {
    var q := s.qs[j];
    TopStays(q, D.StartTake);
    TopStays(q, D.OwnerMove);
    TopStays(q, D.StartSteal(k));
    TopStays(q, D.ThiefMove(k));
    DequeParts(q, k, l);
    WhichDeque(s, k, j);
  }

  lemma {:induction false} DequeParts(q: D.State, k: nat, l: nat)
    requires l != k
    ensures C.ThiefOf(D.Next(q, D.StartTake), l) == C.ThiefOf(q, l)
    ensures C.ThiefOf(D.Next(q, D.OwnerMove), l) == C.ThiefOf(q, l)
    ensures var q' := D.Next(q, D.StartSteal(k)); C.ThiefOf(q', l) == C.ThiefOf(q, l) && q'.owner == q.owner
    ensures var q' := D.Next(q, D.ThiefMove(k)); C.ThiefOf(q', l) == C.ThiefOf(q, l) && q'.owner == q.owner
  {
  }

  lemma {:induction false} WhichDeque(s: State, k: nat, j: nat)
    requires Sized(s) && k < |s.ws| && j < |s.qs|
    ensures var q, q' := s.qs[j], Go(s, k).qs[j];
      || q' == q
      || (j == k && (q' == D.Next(q, D.StartTake) || q' == D.Next(q, D.OwnerMove)))
      || (j != k && (q' == D.Next(q, D.StartSteal(k)) || q' == D.Next(q, D.ThiefMove(k))))
  {
    assert WorkerOk(s.ws[k], k, |s.qs|);
  }

  function AllLeft(s: State, n: nat): nat
    requires n <= |s.ws| == |s.qs|
  {
    if n == 0 then 0 else AllLeft(s, n - 1) + WorkerLeft(s, n - 1)
  }

  lemma {:induction false} AllLower(s: State, s': State, k: nat, n: nat)
    requires n <= |s.ws| == |s.qs| == |s'.ws| == |s'.qs| && k < |s.ws| && WorkerLeft(s', k) < WorkerLeft(s, k)
    requires forall l :: 0 <= l < |s.ws| && l != k ==> WorkerLeft(s', l) == WorkerLeft(s, l)
    ensures if k < n then AllLeft(s', n) < AllLeft(s, n) else AllLeft(s', n) == AllLeft(s, n)
  {
    if n > 0 { AllLower(s, s', k, n - 1); }
  }

  /** Once `done` is set every step of a worker that has not left its loop brings the end nearer: in whatever order they
      step, all workers leave after finitely many steps. */
  lemma {:induction false} WorkersLeave(qs: seq<D.State>, steps: seq<nat>, k: nat)
    requires forall l :: 0 <= l < |qs| ==> Filled(qs[l], |qs|)
    requires var s := Run(Init(qs), steps); s.done && k < |qs| && !WorkerOf(s, k).Exited?
    ensures var s := Run(Init(qs), steps);
      && |s.ws| == |s.qs| == |qs| && |Go(s, k).ws| == |Go(s, k).qs| == |qs|
      && Go(s, k).done && AllLeft(Go(s, k), |qs|) < AllLeft(s, |qs|)
  {
    var s := Run(Init(qs), steps);
    assert Reached(qs, s);
    OwnLower(qs, s, k);
    StillDone(qs, s, k);
    forall l | 0 <= l < |qs| && l != k ensures WorkerLeft(Go(s, k), l) == WorkerLeft(s, l) {
      OthersLeft(qs, s, k, l);
    }
    AllLower(s, Go(s, k), k, |qs|);
  }
}
