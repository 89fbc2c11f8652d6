/** Whole runs of the clock graph: it counts in binary up to 2^N, and then every thread ends. */
module ClockGraphRuns {
  import opened Arithmetic
  import opened ClockGraph

  // ----- before the clock is stopped

  /** How often node `j` has acted when the carry of tick `t` has reached node `pos`: it acts on every
      2^j-th tick. */
  function Acts(t: nat, pos: nat, j: nat): nat {
    if j < pos then Shift(t, j) else if t == 0 then 0 else Shift(t - 1, j)
  }

  /** The node that has the carry has already taken the signal, or seen the clock. */
  predicate Taken(s: State) {
    s.pos < |s.nodes| && s.nodes[s.pos].pc == Act
  }

  ghost predicate NodeOk(s: State, j: nat)
    requires j < |s.nodes| == |s.ready| && s.ticks >= 0
  {
    var n := s.nodes[j];
    && n.i == Acts(s.ticks, s.pos, j) + 1
    && n.bit == (Acts(s.ticks, s.pos, j) % 2 == 1)
    && (n.pc == ClockWait || (n.pc == NodeWait && j > 0) || (n.pc == Act && j == s.pos && s.ticks > 0))
    && (s.ready[j] <==> s.pos == j + 1 && !Taken(s))
  }

  ghost predicate Counting(s: State) {
    && |s.nodes| == |s.ready|
    && s.main != Joining
    && (if s.main == FirstTick then s.ticks == 0 else s.ticks > 0)
    && s.pos <= |s.nodes| && (s.ticks == 0 ==> s.pos == 0)
    && s.ticks >= 0 && ZeroBits(s.ticks, s.pos)
    && s.ticks <= Pow2(|s.nodes|)
    && forall j :: 0 <= j < |s.nodes| ==> NodeOk(s, j)
  }

  lemma {:induction false} PowPositive(n: nat)
    ensures Pow2(n) >= 1
  {
    if n > 0 { PowPositive(n - 1); }
  }

  lemma {:induction false} ShiftZero(j: nat)
    ensures Shift(0, j) == 0
  {
    if j > 0 { ShiftZero(j - 1); }
  }

  lemma {:induction false} InitCounting(n: nat)
    ensures Counting(Init(n))
  {
    PowPositive(n);
  }

  lemma {:induction false} FirstTickCounting(s: State)
    requires Counting(s) && s.main != Stopping
    ensures Counting(MoveMain(s))
  {
    var s' := MoveMain(s);
    PowPositive(|s.nodes|);
    forall j | 0 <= j < |s.nodes| ensures NodeOk(s', j) {
      assert NodeOk(s, j);
      ShiftZero(j);
    }
  }

  /** Threads pass the clock, or take a signal. */
  lemma {:induction false} WaitCounting(s: State, k: nat)
    requires Counting(s) && Enabled(s, k) && s.nodes[k].pc != Act
    ensures Counting(Move(s, k)) && Move(s, k).ticks == s.ticks
  {
    var s' := Move(s, k);
    assert NodeOk(s, k);
    if k > 0 {
      assert NodeOk(s, k - 1);
    }
    assert s.nodes[k].pc == ClockWait && k == 0 ==> s.pos == 0;
    forall j | 0 <= j < |s.nodes| ensures NodeOk(s', j) {
      assert NodeOk(s, j);
    }
  }

  lemma {:induction false} CarryOn(t: nat, k: nat)
    requires t > 0 && ZeroBits(t, k) && Shift(t - 1, k) % 2 == 1
    ensures Shift(t, k) == Shift(t - 1, k) + 1 && Shift(t, k) % 2 == 0 && ZeroBits(t, k + 1)
  {
    ShiftBorrow(t, k);
  }

  /** A node whose bit is set passes the carry on; no earlier signal is lost. */
  lemma {:induction false} SignalCounting(s: State, k: nat)
    requires Counting(s) && k < |s.nodes| && s.nodes[k].pc == Act && s.nodes[k].bit
    ensures Counting(Move(s, k)) && !s.ready[k] && Move(s, k).ticks == s.ticks
  {
    var s', t := Move(s, k), s.ticks;
    assert NodeOk(s, k);
    CarryOn(t, k);
    if k + 1 < |s.nodes| {
      assert NodeOk(s, k + 1);
    }
    forall j | 0 <= j < |s.nodes| ensures NodeOk(s', j) {
      assert NodeOk(s, j);
    }
  }

  /** A node whose bit is clear makes the tick: it is the node of the lowest one bit of `t`. */
  lemma {:induction false} TickCounting(s: State, k: nat)
    requires Counting(s) && k < |s.nodes| && s.nodes[k].pc == Act && !s.nodes[k].bit
    ensures Move(s, k).ticks == s.ticks + 1 && s.ticks > 0 && k == TrailingZeros(s.ticks)
    ensures Counting(Move(s, k))
  {
    var s', t := Move(s, k), s.ticks;
    assert NodeOk(s, k);
    ShiftBorrow(t, k);
    TrailingIs(t, k);
    BelowPower(t, |s.nodes|, k);
    forall j | 0 <= j < |s.nodes| ensures NodeOk(s', j) {
      assert NodeOk(s, j);
      if j > k {
        ShiftSame(t, k, j);
      }
    }
  }

  /** The last tick to be made is the one before 2^n. */
  lemma {:induction false} BelowPower(t: nat, n: nat, k: nat)
    requires 0 < t <= Pow2(n) && k < n && Shift(t, k) % 2 == 1
    ensures t < Pow2(n)
  {
    PowBits(n, k);
    assert Pow2(n - k) == 2 * Pow2(n - k - 1);
  }

  lemma {:induction false} StepCounting(s: State, step: Step)
    requires Counting(s) && Next(s, step).main != Joining
    ensures Counting(Next(s, step))
  {
    match step
    case Go(k) =>
      if Enabled(s, k) {
        if s.nodes[k].pc != Act {
          WaitCounting(s, k);
        } else if s.nodes[k].bit {
          SignalCounting(s, k);
        } else {
          TickCounting(s, k);
        }
      }
    case GoMain => if s.main != Stopping { FirstTickCounting(s); }
  }

  lemma {:induction false} NotYetJoining(s: State, step: Step)
    requires Next(s, step).main != Joining
    ensures s.main != Joining
  {
  }

  lemma {:induction false} RunCounting(n: nat, steps: seq<Step>)
    requires Run(Init(n), steps).main != Joining
    ensures Counting(Run(Init(n), steps)) && |Run(Init(n), steps).nodes| == n
    decreases |steps|
  {
    if steps == [] {
      InitCounting(n);
    } else {
      var s, step := Run(Init(n), steps[..|steps| - 1]), steps[|steps| - 1];
      NotYetJoining(s, step);
      RunCounting(n, steps[..|steps| - 1]);
      StepCounting(s, step);
    }
  }

  /** As long as the clock runs: a step of a thread that changes it adds one, and is made by the node whose
      index is the number of trailing zero bits of the old value; the clock never passes 2^n; at most
      one node has a signal waiting, and a node that signals finds no signal of its own still waiting. */
  lemma {:induction false} CountsInBinary(n: nat, steps: seq<Step>, k: nat)
    requires Run(Init(n), steps).main != Joining && Enabled(Run(Init(n), steps), k)
    ensures var s := Run(Init(n), steps);
      && s.ticks <= Pow2(n)
      && (Move(s, k).ticks != s.ticks ==>
            s.ticks > 0 && Move(s, k).ticks == s.ticks + 1 && k == TrailingZeros(s.ticks))
      && (forall i, j :: 0 <= i < j < |s.ready| ==> !(s.ready[i] && s.ready[j]))
      && (s.nodes[k].pc == Act && s.nodes[k].bit ==> !s.ready[k])
  {
    var s := Run(Init(n), steps);
    RunCounting(n, steps);
    forall i, j | 0 <= i < j < |s.ready| ensures !(s.ready[i] && s.ready[j]) {
      assert NodeOk(s, i) && NodeOk(s, j);
    }
    if s.nodes[k].pc != Act {
      WaitCounting(s, k);
    } else if s.nodes[k].bit {
      SignalCounting(s, k);
    } else {
      TickCounting(s, k);
    }
  }

  // ----- the clock gets to 2^n

  /** Until then the node the carry has reached can always go on. */
  lemma {:induction false} AlwaysEnabled(s: State)
    requires Counting(s) && 0 < s.ticks < Pow2(|s.nodes|)
    ensures Enabled(s, s.pos)
  {
    if s.pos == |s.nodes| {
      ZeroBitsLarge(s.ticks, s.pos);
    }
    assert NodeOk(s, s.pos);
    ShiftBorrow(s.ticks, s.pos);
    ShiftSmall(s.ticks, s.pos);
    if s.pos > 0 {
      assert NodeOk(s, s.pos - 1);
    }
  }

  lemma {:induction false} ShiftSmall(t: nat, j: nat)
    ensures Shift(t, j) <= t
  {
    if j > 0 { ShiftSmall(t, j - 1); }
  }

  function Place(pc: Pc): nat {
    match pc case ClockWait => 0 case NodeWait => 1 case _ => 2
  }

  /** How far the threads have come in all. */
  function Progress(nodes: seq<Node>): nat {
    if nodes == [] then 0
    else
      var n := nodes[|nodes| - 1];
      Progress(nodes[..|nodes| - 1]) + 3 * n.i + Place(n.pc)
  }

  lemma {:induction false} ProgressUpdate(nodes: seq<Node>, k: nat, n: Node)
    requires k < |nodes|
    ensures Progress(nodes[k := n]) == Progress(nodes) - 3 * nodes[k].i - Place(nodes[k].pc) + 3 * n.i + Place(n.pc)
  {
    var front := nodes[..|nodes| - 1];
    if k < |nodes| - 1 {
      ProgressUpdate(front, k, n);
      assert nodes[k := n][..|nodes| - 1] == front[k := n];
    } else {
      assert nodes[k := n][..|nodes| - 1] == front;
    }
  }

  lemma {:induction false} ProgressBound(nodes: seq<Node>, b: nat)
    requires forall j :: 0 <= j < |nodes| ==> nodes[j].i <= b
    ensures Progress(nodes) <= |nodes| * (3 * b + 2)
  {
    if nodes != [] {
      ProgressBound(nodes[..|nodes| - 1], b);
      assert |nodes| * (3 * b + 2) == (|nodes| - 1) * (3 * b + 2) + (3 * b + 2);
    }
  }

  lemma {:induction false} MoveProgress(s: State, k: nat)
    requires Counting(s) && Enabled(s, k)
    ensures Progress(Move(s, k).nodes) > Progress(s.nodes)
  {
    assert NodeOk(s, k);
    ProgressUpdate(s.nodes, k, Move(s, k).nodes[k]);
  }

  /** Every step of a thread is progress, and there is only so much to be made while the clock runs: with
      `AlwaysEnabled`, the clock reaches 2^n whatever the order of steps. */
  lemma {:induction false} ReachesPower(n: nat, steps: seq<Step>)
    requires Run(Init(n), steps).main != Joining
    ensures var s := Run(Init(n), steps);
      && |s.nodes| == n
      && Progress(s.nodes) <= n * (3 * Pow2(n) + 5)
      && (forall k: nat :: Enabled(s, k) ==> Progress(Move(s, k).nodes) > Progress(s.nodes))
      && (s.main == Waiting && s.ticks < Pow2(n) ==> Enabled(s, s.pos))
      && (s.main == Waiting && s.ticks == Pow2(n) ==> MainEnabled(s))
  {
    var s := Run(Init(n), steps);
    RunCounting(n, steps);
    forall j | 0 <= j < |s.nodes| ensures s.nodes[j].i <= Pow2(n) + 1 {
      assert NodeOk(s, j);
      ActsSmall(s.ticks, s.pos, j);
    }
    ProgressBound(s.nodes, Pow2(n) + 1);
    forall k: nat | Enabled(s, k) ensures Progress(Move(s, k).nodes) > Progress(s.nodes) {
      MoveProgress(s, k);
    }
    if s.main == Waiting && s.ticks < Pow2(n) {
      AlwaysEnabled(s);
    }
  }

  lemma {:induction false} ActsSmall(t: nat, pos: nat, j: nat)
    ensures Acts(t, pos, j) <= t
  {
    ShiftSmall(t, j);
    if t > 0 { ShiftSmall(t - 1, j); }
  }

  // ----- the clock is not stopped before that

  lemma {:induction false} TicksGrow(s: State, step: Step)
    requires Next(s, step).main != Joining
    ensures s.ticks <= Next(s, step).ticks
  {
  }

  lemma {:induction false} StoppingStep(s: State, step: Step)
    requires Counting(s) && (s.main == Stopping ==> s.ticks == Pow2(|s.nodes|)) && Next(s, step).main == Stopping
    ensures Next(s, step).ticks == Pow2(|s.nodes|)
  {
    StepCounting(s, step);
    TicksGrow(s, step);
    if s.main != Stopping {
      assert MainEnabled(s);
    }
  }

  /** The main thread goes on to stop the clock only when it stands at 2^n, and nothing moves it on from there. Until
      the clock is stopped no node leaves its loop. */
  lemma {:induction false} StopsAtPower(n: nat, steps: seq<Step>)
    ensures var s := Run(Init(n), steps);
      && (s.main == Stopping ==> s.ticks == Pow2(n))
      && (s.main != Joining ==> forall k :: 0 <= k < |s.nodes| ==> s.nodes[k].pc != LastSignal && s.nodes[k].pc != Done)
    decreases |steps|
  {
    var s := Run(Init(n), steps);
    if s.main != Joining {
      RunCounting(n, steps);
      forall k | 0 <= k < |s.nodes| ensures s.nodes[k].pc != LastSignal && s.nodes[k].pc != Done {
        assert NodeOk(s, k);
      }
    }
    if s.main == Stopping {
      var r, step := Run(Init(n), steps[..|steps| - 1]), steps[|steps| - 1];
      NotYetJoining(r, step);
      RunCounting(n, steps[..|steps| - 1]);
      StopsAtPower(n, steps[..|steps| - 1]);
      StoppingStep(r, step);
    }
  }

  lemma {:induction false} StopStep(s: State, step: Step)
    requires s.main != Joining && Next(s, step).main == Joining
    ensures s.main == Stopping && Next(s, step).ticks < 0
  {
  }

  /** So in every run in which the clock has been stopped it stood at 2^n the moment before. */
  lemma {:induction false} PowerBeforeStop(n: nat, steps: seq<Step>) returns (c: nat)
    requires Run(Init(n), steps).main == Joining
    ensures c < |steps| && Run(Init(n), steps[..c]).ticks == Pow2(n) && Run(Init(n), steps[..c + 1]).ticks < 0
    decreases |steps|
  {
    var front := steps[..|steps| - 1];
    if Run(Init(n), front).main == Joining {
      c := PowerBeforeStop(n, front);
      assert front[..c] == steps[..c] && front[..c + 1] == steps[..c + 1];
    } else {
      c := |front|;
      assert steps[..c + 1] == steps;
      StopStep(Run(Init(n), front), steps[c]);
      StopsAtPower(n, front);
    }
  }

  // ----- after the clock has been stopped

  /** A child that still waits has a parent that is still to signal, or has signalled. */
  ghost predicate Stopped(s: State) {
    && |s.nodes| == |s.ready| && s.main == Joining && s.ticks < 0
    && (|s.nodes| > 0 ==> s.nodes[0].pc != NodeWait)
    && (forall k :: 0 < k < |s.nodes| && s.nodes[k].pc == NodeWait && s.nodes[k - 1].pc == Done ==> s.ready[k - 1])
    && (forall k :: 0 <= k < |s.nodes| ==> s.nodes[k].i > 0)
  }

  lemma {:induction false} StopStops(s: State)
    requires Counting(s) && s.main == Stopping
    ensures Stopped(MoveMain(s))
  {
    forall k | 0 <= k < |s.nodes|
      ensures s.nodes[k].i > 0 && s.nodes[k].pc != Done && (k == 0 ==> s.nodes[k].pc != NodeWait) {
      assert NodeOk(s, k);
    }
  }

  lemma {:induction false} StepStopped(s: State, step: Step)
    requires Stopped(s)
    ensures Stopped(Next(s, step))
  {
  }

  lemma {:induction false} RunStopped(n: nat, steps: seq<Step>)
    ensures var s := Run(Init(n), steps); |s.nodes| == n && if s.main == Joining then Stopped(s) else Counting(s)
    decreases |steps|
  {
    if steps == [] {
      InitCounting(n);
    } else {
      var s, step := Run(Init(n), steps[..|steps| - 1]), steps[|steps| - 1];
      RunStopped(n, steps[..|steps| - 1]);
      if s.main == Joining {
        StepStopped(s, step);
      } else if Next(s, step).main == Joining {
        StopStops(s);
      } else {
        StepCounting(s, step);
      }
    }
  }

  function Rank(pc: Pc): nat {
    match pc case NodeWait => 4 case Act => 3 case ClockWait => 2 case LastSignal => 1 case Done => 0
  }

  /** The steps the threads have left at most. */
  function Remaining(nodes: seq<Node>): nat {
    if nodes == [] then 0 else Remaining(nodes[..|nodes| - 1]) + Rank(nodes[|nodes| - 1].pc)
  }

  lemma {:induction false} RemainingUpdate(nodes: seq<Node>, k: nat, n: Node)
    requires k < |nodes|
    ensures Remaining(nodes[k := n]) == Remaining(nodes) - Rank(nodes[k].pc) + Rank(n.pc)
  {
    var front := nodes[..|nodes| - 1];
    if k < |nodes| - 1 {
      RemainingUpdate(front, k, n);
      assert nodes[k := n][..|nodes| - 1] == front[k := n];
    } else {
      assert nodes[k := n][..|nodes| - 1] == front;
    }
  }

  /** The first thread that has not ended can go on. */
  lemma {:induction false} FirstEnabled(s: State, j: nat) returns (k: nat)
    requires Stopped(s) && j < |s.nodes| && s.nodes[j].pc != Done
    ensures Enabled(s, k)
  {
    if Enabled(s, j) {
      k := j;
    } else {
      assert s.nodes[j].pc == NodeWait && j > 0;
      k := FirstEnabled(s, j - 1);
    }
  }

  /** After `clock_stop`, whatever the order of steps, nobody stays blocked: as long as some thread has not
      ended some thread can go on, and every step leaves fewer to be made. */
  lemma {:induction false} EverybodyEnds(n: nat, steps: seq<Step>)
    requires Run(Init(n), steps).main == Joining
    ensures var s := Run(Init(n), steps);
      && ((exists j :: 0 <= j < |s.nodes| && s.nodes[j].pc != Done) ==> exists k: nat :: Enabled(s, k))
      && (forall k: nat :: Enabled(s, k) ==> Remaining(Move(s, k).nodes) < Remaining(s.nodes))
  {
    var s := Run(Init(n), steps);
    RunStopped(n, steps);
    if j :| 0 <= j < |s.nodes| && s.nodes[j].pc != Done {
      var k := FirstEnabled(s, j);
    }
    forall k: nat | Enabled(s, k) ensures Remaining(Move(s, k).nodes) < Remaining(s.nodes) {
      RemainingUpdate(s.nodes, k, Move(s, k).nodes[k]);
    }
  }
}
