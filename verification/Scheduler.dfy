/** The workers of `work-steal.c` on their deques: who takes or steals a task runs it, and the last
    print task to join runs the task that sets `done`. */
module Scheduler {
  import opened Options
  import D = Deque
  import R = DequeRuns

  datatype Worker =
    | Loop                          // about to take from the own deque
    | Taking
    | Scan(i: nat)                  // about to steal from deque i
    | Stealing(i: nat)
    | Print(j: nat, x: D.Item)      // runs print task x, which came from deque j
    | Join                          // in join_work
    | Last                          // runs done_task
    | Check                         // found nothing, looks at `done`
    | Exited
    | Lost                          // was handed something that is no task

  /** `ran[j]` are the print tasks of deque `j` that have run, `joined` the calls of `join_work` that have
      been made, `dones` the runs of `done_task`. */
  datatype State = State(
    qs: seq<D.State>, ws: seq<Worker>, joinCount: int, done: bool,
    ran: seq<multiset<D.Item>>, joined: nat, dones: nat)

  function Answered(q: D.State): D.Answer {
    if q.out == [] then D.Empty else q.out[|q.out| - 1]
  }

  function At(s: State, k: nat, w: Worker): State
    requires k < |s.ws|
  {
    s.(ws := s.ws[k := w])
  }

  /** What a worker does with the answer of deque `j`. */
  function Received(j: nat, r: D.Answer, ifEmpty: Worker, ifAbort: Worker): Worker {
    match r
    case Got(Some(x)) => Print(j, x)
    case Got(None) => Lost
    case Empty => ifEmpty
    case Abort => ifAbort
  }

  /** The next access of worker `k`. */
  function Next(s: State, k: nat): (s': State)
    requires k < |s.ws| == |s.qs| == |s.ran|
    ensures |s'.ws| == |s.ws| == |s'.qs| == |s'.ran|
  {
    match s.ws[k]
    case Loop => At(s, k, Taking).(qs := s.qs[k := D.Next(s.qs[k], D.StartTake)])
    case Taking =>
      var q := D.Next(s.qs[k], D.OwnerMove);
      At(s, k, if q.owner.Idle? then Received(k, Answered(q), Scan(0), Lost) else Taking).(qs := s.qs[k := q])
    case Scan(i) =>
      if i >= |s.qs| then At(s, k, Check)
      else if i == k then At(s, k, Scan(i + 1))
      else At(s, k, Stealing(i)).(qs := s.qs[i := D.Next(s.qs[i], D.StartSteal(k))])
    case Stealing(i) =>
      if i >= |s.qs| then s
      else
        var q := D.Next(s.qs[i], D.ThiefMove(k));
        var w := if k < |q.thieves| && q.thieves[k].Away? then Received(i, Answered(q), Scan(i + 1), Scan(i)) else Stealing(i);
        At(s, k, w).(qs := s.qs[i := q])
    case Print(j, x) =>
      At(s, k, Join).(ran := if j < |s.ran| then s.ran[j := s.ran[j] + multiset{x}] else s.ran)
    case Join =>
      At(s, k, if s.joinCount == 1 then Last else Loop).(joinCount := s.joinCount - 1, joined := s.joined + 1)
    case Last => At(s, k, Loop).(done := true, dones := s.dones + 1)
    case Check => At(s, k, if s.done then Exited else Loop)
    case Exited => s
    case Lost => s
  }

  function Run(s: State, steps: seq<nat>): State
    requires |s.ws| == |s.qs| == |s.ran|
    ensures var r := Run(s, steps); |r.ws| == |s.ws| == |r.qs| == |r.ran|
  {
    if steps == [] then s
    else
      var r := Run(s, steps[..|steps| - 1]);
      var k := steps[|steps| - 1];
      if k < |r.ws| then Next(r, k) else r
  }

  /** The number of print tasks the main thread has pushed. */
  function Total(qs: seq<D.State>): nat {
    if qs == [] then 0 else Total(qs[..|qs| - 1]) + |qs[|qs| - 1].pushed|
  }

  /** A deque the main thread has filled, before any worker starts. */
  ghost predicate Filled(q: D.State, workers: nat) {
    && D.Inv(q) && q.owner.Idle? && q.out == [] && q.pushed != [] && |q.thieves| == workers
    && (forall k :: 0 <= k < workers ==> q.thieves[k].Away?)
  }

  /** The start of the workers on deques filled by the main thread. */
  function Init(qs: seq<D.State>): State {
    State(qs, seq(|qs|, _ => Loop), Total(qs), false, seq(|qs|, _ => multiset{}), 0, 0)
  }

  // ----- the deques are filled by pushing

  ghost predicate PushesOnly(steps: seq<D.Step>) {
    forall i :: 0 <= i < |steps| ==> steps[i].StartPush? || steps[i].OwnerMove?
  }

  predicate Pushing(o: D.Owner) {
    !(o.TakeLoadArray? || o.TakeStoreBottom? || o.TakeLoadTop? || o.TakeLoadSlot? || o.TakeCas? || o.TakeRestore?)
  }

  /** As long as nobody but the owner works on a deque, and only pushes, nothing comes out of it. */
  lemma {:induction false} FilledByPushing(size: nat, workers: nat, steps: seq<D.Step>)
    requires size >= 1 && PushesOnly(steps)
    ensures var q := D.Run(D.Init(size, workers), steps);
      && D.Inv(q) && q.out == [] && |q.thieves| == workers && Pushing(q.owner)
      && (forall k :: 0 <= k < workers ==> q.thieves[k].Away?)
      && (q.owner.Idle? && q.pushed != [] ==> Filled(q, workers))
    decreases |steps|
  {
    if steps == [] {
      D.InitOk(size, workers);
    } else {
      var q, step := D.Run(D.Init(size, workers), steps[..|steps| - 1]), steps[|steps| - 1];
      FilledByPushing(size, workers, steps[..|steps| - 1]);
      R.StepKeeps(q, step);
      PushStep(q, step);
    }
  }

  lemma {:induction false} PushStep(q: D.State, step: D.Step)
    requires Pushing(q.owner) && (step.StartPush? || step.OwnerMove?)
    ensures var q' := D.Next(q, step); Pushing(q'.owner) && q'.out == q.out && q'.thieves == q.thieves
  {
  }
}
