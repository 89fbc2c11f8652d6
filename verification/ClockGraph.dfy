/** The clock and the computation graph of `hw2/example/main.c`: a chain of nodes that together count
    in binary. A step is one section under a mutex; a condition wait is a step that is not enabled. */
module ClockGraph {
  import opened Arithmetic

  datatype Pc =
    | ClockWait     // in clock_wait(i)
    | NodeWait      // in node_wait(parent)
    | Act           // about to signal or to tick
    | LastSignal    // out of the loop
    | Done

  /** A thread's locals. */
  datatype Node = Node(i: nat, bit: bool, pc: Pc)

  datatype Main = FirstTick | Waiting | Stopping | Joining

  /** `pos` says how far the carry of the current tick has come: the number of nodes that have acted on it. */
  datatype State = State(ticks: int, ready: seq<bool>, nodes: seq<Node>, main: Main, pos: nat)

  datatype Step = Go(k: nat) | GoMain

  function With(s: State, k: nat, n: Node): State
    requires k < |s.nodes|
  {
    s.(nodes := s.nodes[k := n])
  }

  function Tick(ticks: int): int {
    if ticks >= 0 then ticks + 1 else ticks
  }

  /** Whether the step of thread `k` is not a wait for a condition that does not hold. */
  predicate Enabled(s: State, k: nat) {
    && k < |s.nodes| == |s.ready|
    && match s.nodes[k].pc
       case ClockWait => s.ticks < 0 || s.ticks >= s.nodes[k].i
       case NodeWait => k > 0 && s.ready[k - 1]
       case Done => false
       case _ => true
  }

  predicate MainEnabled(s: State) {
    match s.main
    case Waiting => s.ticks < 0 || s.ticks >= Pow2(|s.nodes|)
    case Joining => false
    case _ => true
  }

  function Move(s: State, k: nat): State
    requires Enabled(s, k)
  {
    var n := s.nodes[k];
    match n.pc
    case ClockWait =>
      With(s, k, n.(pc := if s.ticks < n.i then LastSignal else if k > 0 then NodeWait else Act))
    case NodeWait => With(s, k, n.(pc := Act)).(ready := s.ready[k - 1 := false])
    case Act =>
      var next := With(s, k, Node(n.i + 1, !n.bit, ClockWait));
      if n.bit then next.(ready := s.ready[k := true], pos := s.pos + 1) else next.(ticks := Tick(s.ticks), pos := 0)
    case LastSignal => With(s, k, n.(pc := Done)).(ready := s.ready[k := true])
    case Done => s
  }

  function MoveMain(s: State): State {
    match s.main
    case FirstTick => s.(ticks := Tick(s.ticks), main := Waiting)
    case Waiting => s.(main := Stopping)
    case Stopping => s.(ticks := -1, main := Joining)
    case Joining => s
  }

  function Next(s: State, step: Step): State {
    match step
    case Go(k) => if Enabled(s, k) then Move(s, k) else s
    case GoMain => if MainEnabled(s) then MoveMain(s) else s
  }

  function Run(s: State, steps: seq<Step>): State {
    if steps == [] then s else Next(Run(s, steps[..|steps| - 1]), steps[|steps| - 1])
  }

  function Init(n: nat): State {
    State(0, seq(n, _ => false), seq(n, _ => Node(1, false, ClockWait)), FirstTick, 0)
  }

  // ----- binary counting

  /** `t >> j` */
  function Shift(t: nat, j: nat): nat {
    if j == 0 then t else Shift(t, j - 1) / 2
  }

  /** The number of zero bits at the low end of `t`. */
  function TrailingZeros(t: nat): nat
    requires t > 0
  {
    if t % 2 == 1 then 0 else 1 + TrailingZeros(t / 2)
  }

  /** The lowest `p` bits of `t` are zero. */
  predicate ZeroBits(t: nat, p: nat) {
    p == 0 || (ZeroBits(t, p - 1) && Shift(t, p - 1) % 2 == 0)
  }

  /** Up to the lowest one bit, the number before `t` is one less in every shift. */
  lemma {:induction false} ShiftBorrow(t: nat, p: nat)
    requires t > 0 && ZeroBits(t, p)
    ensures Shift(t, p) > 0 && Shift(t - 1, p) == Shift(t, p) - 1
  {
    if p > 0 {
      ShiftBorrow(t, p - 1);
    }
  }

  /** Beyond the lowest one bit, it is the same. */
  lemma {:induction false} ShiftSame(t: nat, p: nat, j: nat)
    requires t > 0 && ZeroBits(t, p) && Shift(t, p) % 2 == 1 && p < j
    ensures Shift(t - 1, j) == Shift(t, j)
  {
    if j == p + 1 {
      ShiftBorrow(t, p);
    } else {
      ShiftSame(t, p, j - 1);
    }
  }

  lemma {:induction false} ShiftHalf(t: nat, j: nat)
    ensures Shift(t / 2, j) == Shift(t, j + 1)
  {
    if j > 0 {
      ShiftHalf(t, j - 1);
    }
  }

  lemma {:induction false} ZeroBitsHalf(t: nat, p: nat)
    requires p > 0 && ZeroBits(t, p)
    ensures t % 2 == 0 && ZeroBits(t / 2, p - 1)
  {
    if p > 1 {
      ZeroBitsHalf(t, p - 1);
      ShiftHalf(t, p - 2);
    }
  }

  /** `p` low zero bits and then a one: that is what `TrailingZeros` counts. */
  lemma {:induction false} TrailingIs(t: nat, p: nat)
    requires t > 0 && ZeroBits(t, p) && Shift(t, p) % 2 == 1
    ensures TrailingZeros(t) == p
  {
    if p > 0 {
      ZeroBitsHalf(t, p);
      ShiftHalf(t, p - 1);
      TrailingIs(t / 2, p - 1);
    }
  }

  /** A positive number with `n` low zero bits is at least 2^n. */
  lemma {:induction false} ZeroBitsLarge(t: nat, n: nat)
    requires t > 0 && ZeroBits(t, n)
    ensures t >= Pow2(n)
  {
    if n > 0 {
      ZeroBitsHalf(t, n);
      ZeroBitsLarge(t / 2, n - 1);
    }
  }

  lemma {:induction false} PowBits(n: nat, p: nat)
    requires p <= n
    ensures ZeroBits(Pow2(n), p) && Shift(Pow2(n), p) == Pow2(n - p)
  {
    if p > 0 {
      PowBits(n, p - 1);
    }
  }
}
