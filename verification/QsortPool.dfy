/** The pool of `qsort-mt.c` as a state machine: one step per lock, unlock, signal or wait, and per
    rearrangement a worker makes in the range it is working on. */
module QsortPool {
  import opened Options
  import opened Ordering
  import opened Quicksort

  datatype Range = Range(lo: nat, n: nat)

  datatype Status = Idle | Work | Term

  /** `given` says that `a` and `n` of a working slot have been set. */
  datatype Slot = Slot(st: Status, work: Range, given: bool)

  /** Where a thread stands. `stack` holds the right parts that wait in its calls of `qsort_algo`. */
  datatype Pc =
    // qsort_thread
    | Again                                  // takes its own `mtx_st`
    | Test                                   // holds it, and looks at `st`
    | Waiting                                // in pthread_cond_wait
    | Look                                   // has released it, and looks at `st`
    // qsort_algo
    | Enter(stack: seq<Range>)               // reads `qs->a` and `qs->n`
    | Busy(cur: Range, stack: seq<Range>)    // compares and swaps in `cur`
    | Parts(cur: Range, nl: nat, nr: nat, stack: seq<Range>)
    | Return(stack: seq<Range>)
    // allocate_thread
    | Allocate(cur: Range, nl: nat, nr: nat, stack: seq<Range>)            // takes `mtx_al`
    | Search(cur: Range, nl: nat, nr: nat, stack: seq<Range>, i: nat)      // holds it
    | Claim(cur: Range, nl: nat, nr: nat, stack: seq<Range>, i: nat)       // holds it, takes `mtx_st` of slot i
    | Give(cur: Range, nl: nat, nr: nat, stack: seq<Range>, i: nat)        // holds `mtx_st` of slot i
    // the end of qsort_thread
    | Finish                                 // takes `mtx_al`
    | Count                                  // holds it
    | Stop(i: nat)                           // holds it, takes `mtx_st` of slot i
    | Exited

  datatype Main = First | Hand | Join

  /** `al` and `mtx[i]` are the holders of the mutexes; the main thread counts as thread |pcs|.
      `down` is set when the pool is told to terminate. */
  datatype Pool = Pool(
    size: nat, forkelem: nat,
    slots: seq<Slot>, pcs: seq<Pc>, al: Option<nat>, mtx: seq<Option<nat>>,
    idle: int, main: Main, down: bool)

  datatype State<T> = State(content: seq<T>, p: Pool)

  datatype Step<T> =
    | Rearrange(k: nat, content: seq<T>)     // swaps inside the current range
    | Partitioned(k: nat, nl: nat, nr: nat)  // the current range has been partitioned
    | SortedNow(k: nat)                      // the current range has been sorted
    | Go(k: nat)
    | Spurious(k: nat)
    | GoMain

  function Left(cur: Range, nl: nat): Range {
    Range(cur.lo, nl)
  }

  function Right(cur: Range, nr: nat): Range {
    Range(if nr <= cur.n then cur.lo + cur.n - nr else cur.lo, nr)
  }

  function At(p: Pool, k: nat, c: Pc): Pool
    requires k < |p.pcs|
  {
    p.(pcs := p.pcs[k := c])
  }

  function Signalled(pcs: seq<Pc>, i: nat): seq<Pc> {
    if i < |pcs| && pcs[i].Waiting? then pcs[i := Again] else pcs
  }

  /** Work on `r` if there is anything in it, else go back to the caller. */
  function Top(r: Range, stack: seq<Range>): Pc {
    if r.n > 0 then Busy(r, stack) else Return(stack)
  }

  predicate Free(m: seq<Option<nat>>, i: nat) {
    i < |m| && m[i] == None
  }

  /** The steps of thread `k` that do not depend on the elements. */
  function Move(p: Pool, k: nat): (r: Pool)
    requires k < |p.pcs| == |p.slots| == |p.mtx|
    ensures |r.pcs| == |p.pcs| && |r.slots| == |p.slots| && |r.mtx| == |p.mtx| && r.size == p.size && r.main == p.main
  {
    var slot := p.slots[k];
    match p.pcs[k]
    case Again => if Free(p.mtx, k) then At(p, k, Test).(mtx := p.mtx[k := Some(k)]) else p
    case Test => At(p, k, if slot.st == Idle then Waiting else Look).(mtx := p.mtx[k := None])
    case Look => At(p, k, if slot.st == Term then Exited else Enter([]))
    case Enter(stack) => At(p, k, Top(slot.work, stack)).(slots := p.slots[k := slot.(given := false)])
    case Parts(cur, nl, nr, stack) =>
      if nl > p.forkelem && nr > p.forkelem then At(p, k, Allocate(cur, nl, nr, stack)) else Recurse(p, k)
    case Allocate(cur, nl, nr, stack) =>
      if p.al == None then At(p, k, Search(cur, nl, nr, stack, 0)).(al := Some(k)) else p
    case Search(cur, nl, nr, stack, i) =>
      if i >= |p.slots| then Recurse(p, k).(al := None)
      else if p.slots[i].st == Idle then At(p, k, Claim(cur, nl, nr, stack, i)).(idle := p.idle - 1)
      else At(p, k, Search(cur, nl, nr, stack, i + 1))
    case Claim(cur, nl, nr, stack, i) =>
      if Free(p.mtx, i) && i < |p.slots| then
        At(p, k, Give(cur, nl, nr, stack, i))
          .(slots := p.slots[i := p.slots[i].(st := Work)], mtx := p.mtx[i := Some(k)], al := None)
      else p
    case Give(cur, nl, nr, stack, i) =>
      if i < |p.slots| then
        p.(slots := p.slots[i := p.slots[i].(work := Left(cur, nl), given := true)], mtx := p.mtx[i := None],
           pcs := Signalled(p.pcs[k := Top(Right(cur, nr), stack)], i))
      else p
    case Return(stack) => At(p, k, if stack == [] then Finish else Top(stack[0], stack[1..]))
    case Finish => if p.al == None then At(p, k, Count).(al := Some(k)) else p
    case Count =>
      var p' := p.(slots := p.slots[k := slot.(st := Idle)], idle := p.idle + 1);
      if p'.idle == |p.slots| then At(p', k, Stop(0)).(down := true) else At(p', k, Again).(al := None)
    case Stop(i) =>
      if i >= |p.slots| then At(p, k, Exited).(al := None)
      else if i == k then At(p, k, Stop(i + 1))
      else if Free(p.mtx, i) then
        p.(slots := p.slots[i := p.slots[i].(st := Term)], pcs := Signalled(p.pcs[k := Stop(i + 1)], i))
      else p
    case _ => p
  }

  /** The left part by recursion, which passes it in the own slot; then the right part. */
  function Recurse(p: Pool, k: nat): (r: Pool)
    requires k < |p.pcs| == |p.slots| && (p.pcs[k].Parts? || p.pcs[k].Search?)
    ensures |r.pcs| == |p.pcs| && |r.slots| == |p.slots|
  {
    var c := p.pcs[k];
    if c.nl > 0 then
      At(p, k, Enter([Right(c.cur, c.nr)] + c.stack))
        .(slots := p.slots[k := p.slots[k].(work := Left(c.cur, c.nl), given := true)])
    else At(p, k, Top(Right(c.cur, c.nr), c.stack))
  }

  /** The main thread hands the whole array to slot 0. */
  function MoveMain(p: Pool): Pool
    requires 0 < |p.pcs| == |p.slots| == |p.mtx|
  {
    match p.main
    case First => if Free(p.mtx, 0) then p.(main := Hand, mtx := p.mtx[0 := Some(|p.pcs|)]) else p
    case Hand =>
      p.(main := Join, slots := p.slots[0 := Slot(Work, Range(0, p.size), true)], idle := p.idle - 1,
         mtx := p.mtx[0 := None], pcs := Signalled(p.pcs, 0))
    case Join => p
  }

  ghost function Next<T>(s: State<T>, step: Step<T>, cmp: Comparator<T>): State<T> {
    var p := s.p;
    if !(0 < |p.pcs| == |p.slots| == |p.mtx|) then s
    else if step.GoMain? then s.(p := MoveMain(p))
    else if step.k >= |p.pcs| then s
    else
      match step
      case Rearrange(k, t) =>
        if p.pcs[k].Busy? && Shuffled(s.content, t, p.pcs[k].cur.lo, p.pcs[k].cur.lo + p.pcs[k].cur.n)
        then s.(content := t) else s
      case Partitioned(k, nl, nr) =>
        if p.pcs[k].Busy? && Parted(s.content, p.pcs[k].cur.lo, p.pcs[k].cur.lo + p.pcs[k].cur.n, nl, nr, cmp)
        then s.(p := At(p, k, Parts(p.pcs[k].cur, nl, nr, p.pcs[k].stack))) else s
      case SortedNow(k) =>
        if p.pcs[k].Busy? && p.pcs[k].cur.lo + p.pcs[k].cur.n <= |s.content|
           && Sorted(s.content, p.pcs[k].cur.lo, p.pcs[k].cur.lo + p.pcs[k].cur.n, cmp)
        then s.(p := At(p, k, Return(p.pcs[k].stack))) else s
      case Go(k) => s.(p := Move(p, k))
      case Spurious(k) => if p.pcs[k].Waiting? then s.(p := At(p, k, Again)) else s
  }

  ghost function Run<T>(s: State<T>, steps: seq<Step<T>>, cmp: Comparator<T>): State<T> {
    if steps == [] then s else Next(Run(s, steps[..|steps| - 1], cmp), steps[|steps| - 1], cmp)
  }

  function Init<T>(input: seq<T>, threads: nat, forkelem: nat): State<T> {
    State(input, Pool(|input|, forkelem,
                      seq(threads, _ => Slot(Idle, Range(0, 0), false)), seq(threads, _ => Again), None,
                      seq(threads, _ => None), threads, First, false))
  }
}
