/** The queue of `mpmc.c` as a state machine, one step per atomic access: threads register,
    walk and extend the list of segments to the cell of their ticket, hand over there, and a
    dequeuer that emptied the last cell of a segment may reclaim old segments. */
module Mpmc {
  import opened Arithmetic
  import opened Options
  import opened MpmcSync

  /** A segment. `freed` is set when it is given back; addresses are not used twice. */
  datatype Node = Node(id: nat, next: Option<nat>, cells: seq<Cell>, freed: bool)

  datatype Role = Enqueuer | Dequeuer

  datatype Registration = Unregistered | Scan(i: nat) | AtBarrier | Ready

  /** Where a thread stands in `mpmc_find_cell`. */
  datatype Finder = Rest | Load | Walk(curr: nat, j: nat) | Link(curr: nat, j: nat)

  /** Where a dequeuer stands after its value is in hand: `init_index`, the old `init_node`
      and the smallest node met so far are locals. */
  datatype Reclaim =
    | No
    | Claim(init: nat)
    | LoadFirst(init: nat)
    | LoadMin(init: nat, first: nat)
    | Scanning(init: nat, first: nat, min: nat, role: Role, i: nat)
    | Decide(init: nat, first: nat, min: nat)
    | Publish(first: nat, min: nat, newId: nat)
    | Free(cur: nat, min: nat)

  /** A thread and its handle: `ptr` is `push` or `pop`, whichever its role uses. */
  datatype Thread = Thread(
    role: Role, reg: Registration, ptr: nat, spare: Option<nat>, find: Finder, rec: Reclaim)

  /** `chain` lists the segments ever linked, in order; `base` is the last `init_id` that was not -1. */
  datatype Memory = Memory(
    bits: nat, threshold: int,
    nodes: seq<Node>, ts: seq<Thread>, enqs: seq<nat>, deqs: seq<nat>,
    initNode: nat, initId: int,
    chain: seq<nat>, base: nat)

  datatype State = State(y: Sync, m: Memory)

  /** N, the number of cells of a segment. */
  function N(m: Memory): (n: nat)
    ensures n > 0
  {
    MaskIsRemainder(0, m.bits);
    Pow2(m.bits)
  }

  /** `i & N_BITS` */
  function Slot(m: Memory, i: nat): nat {
    And(i, N(m) - 1)
  }

  /** The number of the segment ticket `i` belongs to. */
  function Segment(m: Memory, i: nat): nat {
    Quotient(i, N(m))
  }

  function Blank(n: nat): Node {
    Node(0, None, seq(n, _ => Null), false)
  }

  function Id(nodes: seq<Node>, a: nat): nat {
    if a < |nodes| then nodes[a].id else 0
  }

  function Next(nodes: seq<Node>, a: nat): Option<nat> {
    if a < |nodes| then nodes[a].next else None
  }

  function CellIn(nodes: seq<Node>, a: nat, slot: nat): Cell {
    if a < |nodes| && slot < |nodes[a].cells| then nodes[a].cells[slot] else Null
  }

  function WithCell(nodes: seq<Node>, a: nat, slot: nat, c: Cell): seq<Node> {
    if a < |nodes| && slot < |nodes[a].cells| then nodes[a := nodes[a].(cells := nodes[a].cells[slot := c])] else nodes
  }

  function Ptr(m: Memory, k: nat): nat {
    if k < |m.ts| then m.ts[k].ptr else 0
  }

  function Table(m: Memory, role: Role): seq<nat> {
    if role == Enqueuer then m.enqs else m.deqs
  }

  function With(m: Memory, k: nat, th: Thread): Memory
    requires k < |m.ts|
  {
    m.(ts := m.ts[k := th])
  }

  // ----- mpmc_queue_register

  predicate Joined(th: Thread) {
    th.reg.AtBarrier? || th.reg.Ready?
  }

  ghost predicate AllJoined(ts: seq<Thread>, role: Role) {
    forall j :: 0 <= j < |ts| && ts[j].role == role ==> Joined(ts[j])
  }

  ghost function Register(m: Memory, k: nat): Memory
    requires k < |m.ts|
  {
    var th := m.ts[k];
    match th.reg
    case Unregistered =>
      With(m, k, th.(reg := Scan(0), ptr := m.initNode, spare := Some(|m.nodes|))).(nodes := m.nodes + [Blank(N(m))])
    case Scan(i) =>
      if i < |Table(m, th.role)| then With(m, k, th.(reg := Scan(i + 1)))
      else
        var m' := With(m, k, th.(reg := AtBarrier));
        if th.role == Enqueuer then m'.(enqs := m.enqs + [k]) else m'.(deqs := m.deqs + [k])
    case AtBarrier => if AllJoined(m.ts, th.role) then With(m, k, th.(reg := Ready)) else m
    case Ready => m
  }

  // ----- mpmc_find_cell

  /** Go on to the segment of ticket `i`. */
  function FindCell(m: Memory, k: nat, i: nat): Memory
    requires k < |m.ts|
  {
    var th := m.ts[k];
    match th.find
    case Rest => m
    case Load => With(m, k, th.(find := Walk(th.ptr, Id(m.nodes, th.ptr))))
    case Walk(curr, j) =>
      if j < Segment(m, i) then
        With(m, k, th.(find := match Next(m.nodes, curr) case None => Link(curr, j) case Some(next) => Walk(next, j + 1)))
      else With(m, k, th.(ptr := curr, find := Rest))
    case Link(curr, j) => LinkSegment(m, k, curr, j)
  }

  /** Number the spare segment, or a new one, and try to hang it behind `curr`. */
  function LinkSegment(m: Memory, k: nat, curr: nat, j: nat): Memory
    requires k < |m.ts|
  {
    var th := m.ts[k];
    var nodes := if th.spare.Some? then m.nodes else m.nodes + [Blank(N(m))];
    var tmp := if th.spare.Some? then th.spare.value else |m.nodes|;
    if tmp >= |nodes| || curr >= |nodes| then m
    else
      var named := nodes[tmp := nodes[tmp].(id := j + 1)];
      match named[curr].next
      case None =>
        With(m, k, th.(spare := None, find := Walk(tmp, j + 1)))
          .(nodes := named[curr := named[curr].(next := Some(tmp))], chain := m.chain + [tmp])
      case Some(next) =>
        With(m, k, th.(spare := Some(tmp), find := Walk(next, j + 1))).(nodes := named)
  }

  // ----- mpmc_enqueue and mpmc_dequeue

  /** The content of the cell of ticket `t`, in the segment thread `k` has reached. */
  function CellHere(m: Memory, k: nat, t: nat): Cell {
    CellIn(m.nodes, Ptr(m, k), Slot(m, t))
  }

  function Store(m: Memory, k: nat, t: nat, c: Cell): Memory {
    m.(nodes := WithCell(m.nodes, Ptr(m, k), Slot(m, t), c))
  }

  function Swap(s: State, k: nat): State
    requires k < |s.y.pcs| && s.y.pcs[k].Put?
  {
    var p := s.y.pcs[k];
    State(SwapIn(s.y, k, CellHere(s.m, k, p.t)), Store(s.m, k, p.t, Val(p.v)))
  }

  /** Spin once more, or give up and leave the address of the flag. */
  function Await(s: State, k: nat, patient: bool): State
    requires k < |s.y.pcs| && s.y.pcs[k].Get?
  {
    var t := s.y.pcs[k].t;
    if patient then s.(y := Spin(s.y, k, CellHere(s.m, k, t)))
    else State(SwapFlag(s.y, k, CellHere(s.m, k, t)), Store(s.m, k, t, Flag(k)))
  }

  // ----- reclamation

  /** Look at one handle of the table; stop early once the smallest segment is not past `init`. */
  function ScanStep(m: Memory, k: nat): Memory
    requires k < |m.ts| && m.ts[k].rec.Scanning?
  {
    var th, r := m.ts[k], m.ts[k].rec;
    var table := Table(m, r.role);
    var min :=
      if r.i < |table| && Id(m.nodes, Ptr(m, table[r.i])) < Id(m.nodes, r.min) then Ptr(m, table[r.i]) else r.min;
    if r.i < |table| && Id(m.nodes, min) > r.init then
      With(m, k, th.(rec := r.(min := min, i := r.i + 1)))
    else if r.role == Dequeuer then
      With(m, k, th.(rec := Scanning(r.init, r.first, min, Enqueuer, 0)))
    else
      With(m, k, th.(rec := Decide(r.init, r.first, min)))
  }

  /** Whether thread `k` has taken the last cell of a segment, with enough segments behind it. */
  function Due(m: Memory, k: nat, t: nat): bool {
    Slot(m, t) == N(m) - 1 && m.initId >= 0 && Id(m.nodes, Ptr(m, k)) - m.initId >= m.threshold
  }

  /** The next access of a dequeuer that has its value of ticket `t`. It returns when `rec` is `No` again. */
  function Reclaiming(m: Memory, k: nat, t: nat): Memory
    requires k < |m.ts|
  {
    var th := m.ts[k];
    match th.rec
    case No => if Due(m, k, t) then With(m, k, th.(rec := Claim(m.initId))) else m
    case Claim(init) =>
      if m.initId == init then With(m, k, th.(rec := LoadFirst(init))).(initId := -1)
      else With(m, k, th.(rec := No))
    case LoadFirst(init) => With(m, k, th.(rec := LoadMin(init, m.initNode)))
    case LoadMin(init, first) =>
      if |m.deqs| > 0 then With(m, k, th.(rec := Scanning(init, first, Ptr(m, m.deqs[0]), Dequeuer, 1))) else m
    case Scanning(_, _, _, _, _) => ScanStep(m, k)
    case Decide(init, first, min) =>
      if Id(m.nodes, min) <= init then With(m, k, th.(rec := No)).(initId := init)
      else With(m, k, th.(rec := Publish(first, min, Id(m.nodes, min)))).(initNode := min)
    case Publish(first, min, newId) => With(m, k, th.(rec := Free(first, min))).(initId := newId, base := newId)
    case Free(cur, min) =>
      if cur < |m.nodes| && m.nodes[cur].next.Some? then
        var next := m.nodes[cur].next.value;
        With(m, k, th.(rec := if next == min then No else Free(next, min)))
          .(nodes := m.nodes[cur := m.nodes[cur].(freed := true)])
      else m
  }

  function Finish(s: State, k: nat): State
    requires k < |s.m.ts| && k < |s.y.pcs| && s.y.pcs[k].Have?
  {
    var m := Reclaiming(s.m, k, s.y.pcs[k].t);
    State(if m.ts[k].rec == No then Return(s.y, k) else s.y, m)
  }

  // ----- all steps

  datatype Step = Enroll(k: nat) | StartEnqueue(k: nat, v: int) | StartDequeue(k: nat) | Go(k: nat, patient: bool)

  function Continue(s: State, k: nat, patient: bool): State
    requires k < |s.m.ts| && k < |s.y.pcs| == |s.y.flag|
  {
    match s.y.pcs[k]
    case Idle => s
    case Wild => s
    case Put(_, t) => if s.m.ts[k].find != Rest then s.(m := FindCell(s.m, k, t)) else Swap(s, k)
    case Clear(_, _) => s.(y := ClearFlag(s.y, k))
    case Wake(_, _) => s.(y := WakeUp(s.y, k))
    case Get(t) => if s.m.ts[k].find != Rest then s.(m := FindCell(s.m, k, t)) else Await(s, k, patient)
    case Read(t) => s.(y := ReadCell(s.y, k, CellHere(s.m, k, t)))
    case Have(_, _) => Finish(s, k)
    case _ => s.(y := Waiting(s.y, k))
  }

  ghost function Take(s: State, step: Step): State {
    var k := step.k;
    if !(k < |s.m.ts| == |s.y.pcs| == |s.y.flag|) then s
    else
      var th := s.m.ts[k];
      match step
      case Enroll(_) => s.(m := Register(s.m, k))
      case StartEnqueue(_, v) =>
        if th.role == Enqueuer && th.reg == Ready && s.y.pcs[k] == Idle
        then State(StartPut(s.y, k, v), With(s.m, k, th.(find := Load))) else s
      case StartDequeue(_) =>
        if th.role == Dequeuer && th.reg == Ready && s.y.pcs[k] == Idle
        then State(StartGet(s.y, k), With(s.m, k, th.(find := Load))) else s
      case Go(_, patient) => Continue(s, k, patient)
  }

  ghost function Run(s: State, steps: seq<Step>): State {
    if steps == [] then s else Take(Run(s, steps[..|steps| - 1]), steps[|steps| - 1])
  }

  /** `mpmc_init_queue`, with one thread for each role listed. */
  function Init(bits: nat, threshold: int, roles: seq<Role>): State {
    var n := |roles|;
    var ts := seq(n, i requires 0 <= i < n => Thread(roles[i], Unregistered, 0, None, Rest, No));
    State(Sync(0, 0, seq(n, _ => Idle), seq(n, _ => false), map[], {}, map[]),
          Memory(bits, threshold, [Blank(Pow2(bits))], ts, [], [], 0, 0, [0], 0))
  }

  /** The segments whose memory the next access of thread `k` needs. */
  function Touched(s: State, k: nat): set<nat> {
    if !(k < |s.m.ts| && k < |s.y.pcs|) then {}
    else
      var th, p := s.m.ts[k], s.y.pcs[k];
      match th.find
      case Load => {th.ptr}
      case Walk(curr, _) => {curr}
      case Link(curr, _) => {curr} + if th.spare.Some? then {th.spare.value} else {}
      case Rest =>
        if p.Put? || p.Get? || p.Read? then {th.ptr}
        else if p.Have? then
          match th.rec
          case No => {th.ptr}
          case Scanning(_, _, min, role, i) =>
            {min} + if i < |Table(s.m, role)| then {Ptr(s.m, Table(s.m, role)[i])} else {}
          case Decide(_, _, min) => {min}
          case Free(cur, _) => {cur}
          case _ => {}
        else {}
  }
}
