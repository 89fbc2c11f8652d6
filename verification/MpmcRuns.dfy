/** Over every run of the queue: each dequeue returns the value of the enqueue with its ticket, no
    wake-up is lost, and no thread touches a segment that has been freed. */
module MpmcRuns {
  import opened Arithmetic
  import opened Options
  import opened MpmcSync
  import opened Mpmc
  import opened MpmcMemory
  import opened MpmcHeap
  import opened MpmcReclaim
  import opened MpmcSteps

  // ----- registration

  /** While some thread is not registered, nothing has been dequeued, so nothing is being reclaimed. */
  lemma {:induction false} NothingYet(s: State, k: nat)
    requires Inv(s) && k < |s.m.ts| && !Joined(s.m.ts[k])
    ensures s.m.initId >= 0 && s.m.base == 0
    ensures forall j :: 0 <= j < |s.m.ts| ==> s.m.ts[j].rec == No
  {
    assert !AllJoined(s.m.ts, s.m.ts[k].role);
    forall j | 0 <= j < |s.m.ts| ensures s.m.ts[j].rec == No {
      assert ThreadOk(s.y, s.m, j) && PcOk(s.y, Cells(s.m), j);
    }
  }

  lemma {:induction false} QuietHeap(m: Memory, m': Memory)
    requires HeapOk(m) && m' == m.(ts := m'.ts, enqs := m'.enqs, deqs := m'.deqs) && |m'.ts| == |m.ts|
    requires forall j :: 0 <= j < |m.ts| ==> m.ts[j].rec == No && m'.ts[j].rec == No && m'.ts[j].spare == m.ts[j].spare
    requires m.initId >= 0
    ensures HeapOk(m') && Extends(m, m')
  {
    assert forall a: nat :: On(m', a) == On(m, a);
    assert RecsOk(m');
    assert forall q :: !BeingFreed(m, q) && !BeingFreed(m', q);
    assert SparesOk(m') by {
      forall l | 0 <= l < |m'.ts| && m'.ts[l].spare.Some? ensures SpareOk(m', m'.ts[l].spare.value) {
        assert SpareOk(m, m.ts[l].spare.value);
      }
    }
  }

  /** A thread that is not registered reads `init_node`, and goes through the table. */
  lemma {:induction false} EnrollThreads(y: Sync, m: Memory, m': Memory, k: nat)
    requires ThreadsOk(y, m) && RecsOk(m) && k < |m.ts| && !Joined(m.ts[k]) && m.initId >= 0 && m.base == 0 && ChainOk(m)
    requires |m'.ts| == |m.ts| && m' == m.(ts := m.ts[k := m'.ts[k]], enqs := m'.enqs, deqs := m'.deqs) && Extends(m, m')
    requires m'.ts[k] == m.ts[k].(reg := m'.ts[k].reg, ptr := m'.ts[k].ptr) && m'.ts[k].reg != Unregistered
    requires m'.ts[k].reg != Ready
    requires m'.ts[k].ptr == if m.ts[k].reg.Unregistered? then m.initNode else m.ts[k].ptr
    ensures ThreadsOk(y, m')
  {
    assert ThreadOk(y, m, k);
    assert Id(m.nodes, m.chain[0]) == 0;
    OthersStay(y, y, m, m', k);
  }

  /** What `Register` does before the barrier, but for the spare segment. */
  ghost function Enrolled(m: Memory, k: nat): Memory
    requires k < |m.ts|
  {
    var th := m.ts[k];
    match th.reg
    case Unregistered => With(m, k, th.(reg := Scan(0), ptr := m.initNode))
    case _ => Register(m, k)
  }

  lemma {:induction false} EnrolledTables(y: Sync, m: Memory, k: nat)
    requires RegistrationOk(y, m) && k < |m.ts| && !Joined(m.ts[k]) && m.base == 0 && m.initId >= 0
    ensures RegistrationOk(y, Enrolled(m, k))
  {
    var m', role := Enrolled(m, k), m.ts[k].role;
    assert !AllJoined(m.ts, role);
    assert forall r: Role :: r != role ==> Table(m', r) == Table(m, r);
    assert forall r: Role :: AllJoined(m.ts, r) ==> AllJoined(m'.ts, r);
    EnrolledTable(y, m, k, Enqueuer);
    EnrolledTable(y, m, k, Dequeuer);
  }

  lemma {:induction false} EnrolledShape(m: Memory, k: nat)
    requires k < |m.ts| && !Joined(m.ts[k])
    ensures var m', th := Enrolled(m, k), m.ts[k];
      && |m'.ts| == |m.ts| && m' == m.(ts := m.ts[k := m'.ts[k]], enqs := m'.enqs, deqs := m'.deqs)
      && m'.ts[k] == th.(reg := m'.ts[k].reg, ptr := m'.ts[k].ptr) && !m'.ts[k].reg.Unregistered? && !m'.ts[k].reg.Ready?
      && m'.ts[k].ptr == (if th.reg.Unregistered? then m.initNode else th.ptr)
      && (forall role: Role ::
            Table(m', role) == if role == th.role && Joined(m'.ts[k]) then Table(m, role) + [k] else Table(m, role))
      && (m'.ts[k].reg.Scan? ==> m'.ts[k].reg.i <= if th.reg.Scan? then |Table(m, th.role)| else 0)
  {
  }

  lemma {:induction false} EnrolledTable(y: Sync, m: Memory, k: nat, role: Role)
    requires RegistrationOk(y, m) && k < |m.ts| && !Joined(m.ts[k]) && !AllJoined(m.ts, m.ts[k].role)
    requires forall r: Role :: AllJoined(m.ts, r) ==> AllJoined(Enrolled(m, k).ts, r)
    ensures TableOk(Enrolled(m, k).ts, Table(Enrolled(m, k), role), role)
  {
    EnrolledShape(m, k);
    assert TableOk(m.ts, Table(m, role), role);
    TableGrows(m.ts, Enrolled(m, k).ts, Table(m, role), Table(Enrolled(m, k), role), k, role);
  }

  /** A thread that has gone through the table joins it. */
  lemma {:induction false} TableGrows(ts: seq<Thread>, ts': seq<Thread>, table: seq<nat>, table': seq<nat>, k: nat, role: Role)
    requires TableOk(ts, table, role) && k < |ts| == |ts'| && ts' == ts[k := ts'[k]] && !Joined(ts[k])
    requires ts'[k].role == ts[k].role && !ts'[k].reg.Ready? && (AllJoined(ts, role) ==> AllJoined(ts', role))
    requires table' == if role == ts[k].role && Joined(ts'[k]) then table + [k] else table
    requires ts[k].role == role && ts'[k].reg.Scan? ==> ts'[k].reg.i <= |table|
    ensures TableOk(ts', table', role)
  {
    forall j | 0 <= j < |ts'| && ts'[j].role == role && Joined(ts'[j]) ensures j in table' {
      if j != k {
        assert j in table;
      } else {
        assert table'[|table|] == k;
      }
    }
  }

  lemma {:induction false} EnrolledHeap(m: Memory, k: nat)
    requires HeapOk(m) && k < |m.ts| && !Joined(m.ts[k]) && m.initId >= 0
    requires forall j :: 0 <= j < |m.ts| ==> m.ts[j].rec == No
    ensures HeapOk(Enrolled(m, k)) && Extends(m, Enrolled(m, k))
  {
    EnrolledShape(m, k);
    QuietHeap(m, Enrolled(m, k));
  }

  lemma {:induction false} SameCells(m: Memory, m': Memory)
    requires m'.bits == m.bits && m'.nodes == m.nodes && m'.chain == m.chain
    ensures forall u: nat :: CellOf(m', u) == CellOf(m, u)
  {
  }

  lemma {:induction false} EnrolledPaired(y: Sync, m: Memory, k: nat)
    requires Paired(y, Cells(m)) && k < |m.ts| && !Joined(m.ts[k])
    ensures Paired(y, Cells(Enrolled(m, k)))
  {
    EnrolledShape(m, k);
    SameCells(m, Enrolled(m, k));
    SamePaired(y, Cells(m), Cells(Enrolled(m, k)));
  }

  lemma {:induction false} EnrolledMemory(s: State, k: nat)
    requires Inv(s) && k < |s.m.ts| && !Joined(s.m.ts[k])
    ensures MemoryOk(s.(m := Enrolled(s.m, k))) && Paired(s.y, Cells(Enrolled(s.m, k)))
  {
    NothingYet(s, k);
    EnrolledShape(s.m, k);
    EnrolledHeap(s.m, k);
    EnrollThreads(s.y, s.m, Enrolled(s.m, k), k);
    EnrolledTables(s.y, s.m, k);
    EnrolledPaired(s.y, s.m, k);
  }

  lemma {:induction false} AllocThreads(y: Sync, m: Memory, k: nat)
    requires ThreadsOk(y, m) && RegistrationOk(y, m) && k < |m.ts| && m.ts[k].reg != Unregistered
    requires Grows(m, Allocated(m, k))
    ensures ThreadsOk(y, Allocated(m, k)) && RegistrationOk(y, Allocated(m, k))
  {
    var m' := Allocated(m, k);
    assert ThreadOk(y, m, k);
    PlaceKept(m, m', m.ts[k], y.pcs[k], Bound(y, m, k), Bound(y, m, k));
    OthersStay(y, y, m, m', k);
    RegistrationSame(y, y, m, m');
  }

  lemma {:induction false} AllocStep(s: State, k: nat)
    requires Inv(s) && k < |s.m.ts| && s.m.ts[k].spare == None && s.m.ts[k].reg != Unregistered
    ensures Inv(s.(m := Allocated(s.m, k)))
  {
    var m, m' := s.m, Allocated(s.m, k);
    HandlesOn(s.y, m);
    forall u: nat ensures CellOf(m', u) == CellOf(m, u) {
      AllocAdded(m, k, u);
    }
    AllocHeap(m, k);
    AllocThreads(s.y, m, k);
    SamePaired(s.y, Cells(m), Cells(m'));
  }

  lemma {:induction false} BarrierThreads(y: Sync, m: Memory, k: nat)
    requires ThreadsOk(y, m) && k < |m.ts| && Joined(m.ts[k])
    ensures ThreadsOk(y, Register(m, k))
  {
    var m' := Register(m, k);
    assert ThreadOk(y, m, k);
    if m' != m {
      MoveLinks(m, k, m'.ts[k]);
      assert ThreadOk(y, m', k);
      OthersStay(y, y, m, m', k);
    }
  }

  lemma {:induction false} BarrierStep(s: State, k: nat)
    requires Inv(s) && k < |s.m.ts| && Joined(s.m.ts[k])
    ensures Inv(s.(m := Register(s.m, k)))
  {
    var m, m' := s.m, Register(s.m, k);
    if m' != m {
      MoveHeap(m, k, m'.ts[k]);
      BarrierThreads(s.y, m, k);
      BarrierTables(s.y, m, k);
      WithCells(s.y, m, k, m'.ts[k]);
    }
  }

  lemma {:induction false} BarrierTables(y: Sync, m: Memory, k: nat)
    requires RegistrationOk(y, m) && k < |m.ts| && Joined(m.ts[k])
    ensures RegistrationOk(y, Register(m, k))
  {
    var m' := Register(m, k);
    assert forall r: Role :: AllJoined(m.ts, r) ==> AllJoined(m'.ts, r);
  }

  lemma {:induction false} Registers(m: Memory, k: nat)
    requires k < |m.ts| && !Joined(m.ts[k]) && (m.ts[k].reg.Unregistered? ==> m.ts[k].spare == None)
    ensures Register(m, k) == if m.ts[k].reg.Unregistered? then Allocated(Enrolled(m, k), k) else Enrolled(m, k)
  {
    if m.ts[k].reg.Unregistered? {
      assert Register(m, k).ts == Allocated(Enrolled(m, k), k).ts;
    }
  }

  lemma {:induction false} RegisterStep(s: State, k: nat)
    requires Inv(s) && k < |s.m.ts|
    ensures Inv(s.(m := Register(s.m, k)))
  {
    if Joined(s.m.ts[k]) {
      BarrierStep(s, k);
    } else {
      assert ThreadOk(s.y, s.m, k);
      Registers(s.m, k);
      EnrolledMemory(s, k);
      if s.m.ts[k].reg.Unregistered? {
        EnrolledShape(s.m, k);
        AllocStep(s.(m := Enrolled(s.m, k)), k);
      }
    }
  }

  // ----- an operation starts

  lemma {:induction false} StartMemory(s: State, k: nat, y': Sync)
    requires MemoryOk(s) && k < |s.m.ts| && s.m.ts[k].reg == Ready && s.y.pcs[k] == Idle && |y'.pcs| == |y'.flag| == |s.y.pcs|
    requires forall j :: 0 <= j < |s.y.pcs| && j != k ==> y'.pcs[j] == s.y.pcs[j]
    requires if s.m.ts[k].role == Enqueuer then y'.pcs[k].Put? && y'.pcs[k].t == s.y.put < y'.put && y'.pop == s.y.pop
             else y'.pcs[k].Get? && y'.pcs[k].t == s.y.pop < y'.pop && y'.put == s.y.put
    ensures MemoryOk(State(y', With(s.m, k, s.m.ts[k].(find := Load))))
  {
    assert ThreadOk(s.y, s.m, k);
    assert TableOk(s.m.ts, Table(s.m, s.m.ts[k].role), s.m.ts[k].role);
    assert AllJoined(s.m.ts, s.m.ts[k].role);
    MoverStep(s, k, y', s.m.ts[k].(find := Load));
  }

  lemma {:induction false} StartStep(s: State, k: nat, v: int)
    requires Inv(s) && k < |s.m.ts| && s.m.ts[k].reg == Ready && s.y.pcs[k] == Idle
    ensures Inv(Take(s, if s.m.ts[k].role == Enqueuer then StartEnqueue(k, v) else StartDequeue(k)))
  {
    var th := s.m.ts[k].(find := Load);
    var y' := if th.role == Enqueuer then StartPut(s.y, k, v) else StartGet(s.y, k);
    StartMemory(s, k, y');
    if th.role == Enqueuer {
      StartPutPaired(s.y, Cells(s.m), k, v);
    } else {
      StartGetPaired(s.y, Cells(s.m), k);
    }
    WithCells(y', s.m, k, th);
  }

  // ----- a dequeue returns, or reclaims

  lemma {:induction false} ReclaimShape(m: Memory, k: nat, t: nat)
    requires k < |m.ts|
    ensures var m' := Reclaiming(m, k, t);
      && |m'.ts| == |m.ts| && m'.enqs == m.enqs && m'.deqs == m.deqs && m'.bits == m.bits && m'.chain == m.chain
      && m'.ts == m.ts[k := m'.ts[k]] && m'.ts[k] == m.ts[k].(rec := m'.ts[k].rec)
      && (m'.base == m.base || (m.ts[k].rec.Publish? && m'.base == m.ts[k].rec.newId))
  {
  }

  lemma {:induction false} ReclaimIds(m: Memory, k: nat, t: nat, a: nat)
    requires k < |m.ts|
    ensures var m' := Reclaiming(m, k, t); |m'.nodes| == |m.nodes| && Id(m'.nodes, a) == Id(m.nodes, a)
  {
  }

  lemma {:induction false} ReclaimLinks(m: Memory, k: nat, t: nat)
    requires k < |m.ts|
    ensures var m' := Reclaiming(m, k, t);
      && Extends(m, m') && |m'.ts| == |m.ts| && m'.enqs == m.enqs && m'.deqs == m.deqs
      && m'.ts[k] == m.ts[k].(rec := m'.ts[k].rec)
      && (forall j :: 0 <= j < |m.ts| && j != k ==> m'.ts[j] == m.ts[j])
      && (m'.base == m.base || (m.ts[k].rec.Publish? && m'.base == m.ts[k].rec.newId))
  {
    var m' := Reclaiming(m, k, t);
    ReclaimShape(m, k, t);
    forall a: nat ensures |m'.nodes| == |m.nodes| && Id(m'.nodes, a) == Id(m.nodes, a) {
      ReclaimIds(m, k, t, a);
    }
  }

  lemma {:induction false} ReclaimCells(m: Memory, k: nat, t: nat, u: nat)
    requires k < |m.ts|
    ensures CellOf(Reclaiming(m, k, t), u) == CellOf(m, u)
  {
    var m' := Reclaiming(m, k, t);
    assert m'.bits == m.bits && m'.chain == m.chain;
    assert forall a, i :: CellIn(m'.nodes, a, i) == CellIn(m.nodes, a, i);
  }

  /** Wherever `base` moves, no handle is left behind it. */
  lemma {:induction false} BaseBehind(y: Sync, m: Memory, k: nat, t: nat, j: nat)
    requires HeapOk(m) && ThreadsOk(y, m) && RegistrationOk(y, m) && k < |m.ts| && j < |m.ts|
    requires m.ts[j].reg != Unregistered && AllJoined(m.ts, m.ts[j].role)
    ensures Reclaiming(m, k, t).base <= Id(m.nodes, m.ts[j].ptr)
  {
    assert ThreadOk(y, m, j) && RecOk(m, m.ts[k].rec);
    ReclaimLinks(m, k, t);
    if m.ts[k].rec.Publish? {
      var table := Table(m, m.ts[j].role);
      var l :| 0 <= l < |table| && table[l] == j;
      assert Above(m, m.ts[j].role, |table|, m.ts[k].rec.newId);
    }
  }

  lemma {:induction false} FinishThreads(s: State, k: nat)
    requires MemoryOk(s) && k < |s.m.ts| && s.y.pcs[k].Have? && s.y.pcs[k].t < s.y.pop
    requires AllJoined(s.m.ts, Enqueuer) && AllJoined(s.m.ts, Dequeuer)
    ensures ThreadsOk(Finish(s, k).y, Finish(s, k).m)
  {
    var y, m, s' := s.y, s.m, Finish(s, k);
    ReclaimLinks(m, k, y.pcs[k].t);
    assert ThreadOk(y, m, k);
    BaseBehind(y, m, k, y.pcs[k].t, k);
    PlaceKept(m, s'.m, m.ts[k], y.pcs[k], Bound(y, m, k), Bound(y, m, k));
    forall j | 0 <= j < |m.ts| ensures ThreadOk(s'.y, s'.m, j) {
      if j != k {
        assert ThreadOk(y, m, j);
        BaseBehind(y, m, k, y.pcs[k].t, j);
        OtherThread(y, s'.y, m, s'.m, j);
      }
    }
  }

  lemma {:induction false} FinishStep(s: State, k: nat)
    requires Inv(s) && k < |s.m.ts| && s.y.pcs[k].Have?
    ensures Inv(Finish(s, k))
  {
    var y, m, s', t := s.y, s.m, Finish(s, k), s.y.pcs[k].t;
    assert PcOk(y, Cells(m), k);
    HandlesOn(y, m);
    ReclaimingHeap(m, k, t);
    ReclaimLinks(m, k, t);
    FinishThreads(s, k);
    RegistrationSame(y, s'.y, m, s'.m);
    forall u: nat ensures CellOf(s'.m, u) == CellOf(m, u) {
      ReclaimCells(m, k, t, u);
    }
    if s'.y != y {
      ReturnPaired(y, Cells(m), k);
    }
    SamePaired(s'.y, Cells(m), Cells(s'.m));
  }

  // ----- every run

  /** A thread looks for a cell only for its ticket, and stops before it reclaims. */
  lemma {:induction false} GoFacts(s: State, k: nat)
    requires Inv(s) && k < |s.m.ts|
    ensures |s.m.ts| == |s.y.pcs| == |s.y.flag| && !s.y.pcs[k].Wild?
    ensures s.m.ts[k].find != Rest ==> Seeks(s.y.pcs[k])
  {
    assert ThreadOk(s.y, s.m, k) && PcOk(s.y, Cells(s.m), k);
  }

  lemma {:induction false} Continues(s: State, k: nat, patient: bool)
    requires k < |s.m.ts| && k < |s.y.pcs| == |s.y.flag| && (s.m.ts[k].find != Rest ==> Seeks(s.y.pcs[k]))
    ensures s.y.pcs[k].Have? ==> Continue(s, k, patient) == Finish(s, k)
    ensures s.m.ts[k].find != Rest ==> Continue(s, k, patient) == s.(m := FindCell(s.m, k, s.y.pcs[k].t))
    ensures s.m.ts[k].find == Rest && s.y.pcs[k].Put? ==> Continue(s, k, patient) == Swap(s, k)
    ensures s.m.ts[k].find == Rest && s.y.pcs[k].Get? ==> Continue(s, k, patient) == Await(s, k, patient)
    ensures s.y.pcs[k].Idle? ==> Continue(s, k, patient) == s
  {
  }

  lemma {:induction false} GoStep(s: State, s': State, k: nat, patient: bool)
    requires Inv(s) && k < |s.m.ts| && |s.m.ts| == |s.y.pcs| == |s.y.flag| && s' == Continue(s, k, patient)
    ensures Inv(s')
  {
    GoFacts(s, k);
    Continues(s, k, patient);
    if s.y.pcs[k].Have? {
      FinishStep(s, k);
    } else if s.m.ts[k].find.Link? {
      LinkStep(s, k);
    } else if s.m.ts[k].find != Rest {
      WalkStep(s, k);
    } else {
      CellStep(s, s', k, patient);
    }
  }

  lemma {:induction false} CellStep(s: State, s': State, k: nat, patient: bool)
    requires Inv(s) && k < |s.m.ts| && s.m.ts[k].find == Rest && !s.y.pcs[k].Have? && !s.y.pcs[k].Wild?
    requires |s.m.ts| == |s.y.pcs| == |s.y.flag| && s' == Continue(s, k, patient)
    ensures Inv(s')
  {
    Continues(s, k, patient);
    if s.y.pcs[k].Put? {
      SwapStep(s, k);
    } else if s.y.pcs[k].Get? && !patient {
      SwapFlagStep(s, k);
    } else if !s.y.pcs[k].Idle? {
      PlainStep(s, k, patient);
    }
  }

  lemma {:induction false} StepKeeps(s: State, step: Step)
    requires Inv(s)
    ensures Inv(Take(s, step))
  {
    var k := step.k;
    if k < |s.m.ts| {
      match step
      case Enroll(_) => RegisterStep(s, k);
      case StartEnqueue(_, v) =>
        if s.m.ts[k].role == Enqueuer && s.m.ts[k].reg == Ready && s.y.pcs[k] == Idle { StartStep(s, k, v); }
      case StartDequeue(_) =>
        if s.m.ts[k].role == Dequeuer && s.m.ts[k].reg == Ready && s.y.pcs[k] == Idle { StartStep(s, k, 0); }
      case Go(_, patient) => GoStep(s, Take(s, step), k, patient);
    }
  }

  lemma {:induction false} InitKeeps(bits: nat, threshold: int, roles: seq<Role>)
    ensures Inv(Init(bits, threshold, roles))
  {
    var s := Init(bits, threshold, roles);
    assert N(s.m) == Pow2(bits);
    assert ChainOk(s.m);
    assert forall q :: !BeingFreed(s.m, q);
    assert forall a: nat :: a < |s.m.nodes| ==> On(s.m, a);
    assert MemoryOk(s);
    assert forall t: nat :: CellOf(s.m, t) == Null;
    assert Paired(s.y, Cells(s.m));
  }

  lemma {:induction false} RunKeeps(s: State, steps: seq<Step>)
    requires Inv(s)
    ensures Inv(Run(s, steps))
    decreases |steps|
  {
    if steps != [] {
      RunKeeps(s, steps[..|steps| - 1]);
      StepKeeps(Run(s, steps[..|steps| - 1]), steps[|steps| - 1]);
    }
  }

  /** Dequeue `t` returns what enqueue `t` was given, whichever came to the cell first, and returns once. */
  lemma {:induction false} TicketsPair(bits: nat, threshold: int, roles: seq<Role>, steps: seq<Step>, k: nat, t: nat)
    requires k < |roles|
    ensures var y := Run(Init(bits, threshold, roles), steps).y;
      && |y.pcs| == |roles|
      && (t in y.got ==> t in y.sent && t in y.vals && y.got[t] == Val(y.vals[t]))
      && (y.pcs[k].Have? ==>
            var u := y.pcs[k].t; u in y.sent && u in y.vals && y.pcs[k].c == Val(y.vals[u]) && u !in y.got)
      && !y.pcs[k].Wild?
  {
    var s := Run(Init(bits, threshold, roles), steps);
    InitKeeps(bits, threshold, roles);
    RunKeeps(Init(bits, threshold, roles), steps);
    RunThreads(Init(bits, threshold, roles), steps);
    assert PcOk(s.y, Cells(s.m), k);
  }

  /** A dequeuer asleep on its flag still waits for the value, or is still owed the store that clears
      the flag, or is still owed the wake-up after it. */
  lemma {:induction false} NoLostWakeup(bits: nat, threshold: int, roles: seq<Role>, steps: seq<Step>, k: nat)
    requires k < |roles|
    ensures var y := Run(Init(bits, threshold, roles), steps).y;
      && |y.pcs| == |y.flag| == |roles|
      && (y.pcs[k].Asleep? ==>
            var t := y.pcs[k].t;
            || (y.flag[k] && t !in y.sent)
            || (y.flag[k] && ClearOwed(y, t, k))
            || WakeOwed(y, k))
  {
    var s := Run(Init(bits, threshold, roles), steps);
    InitKeeps(bits, threshold, roles);
    RunKeeps(Init(bits, threshold, roles), steps);
    RunThreads(Init(bits, threshold, roles), steps);
    assert PcOk(s.y, Cells(s.m), k);
  }

  /** No access of any thread, in any run, is to a segment that has been freed; freeing one is such an
      access, so none is freed twice. */
  lemma {:induction false} NoUseAfterFree(bits: nat, threshold: int, roles: seq<Role>, steps: seq<Step>, k: nat, a: nat)
    requires a in Touched(Run(Init(bits, threshold, roles), steps), k)
    ensures var nodes := Run(Init(bits, threshold, roles), steps).m.nodes; a < |nodes| && !nodes[a].freed
  {
    InitKeeps(bits, threshold, roles);
    RunKeeps(Init(bits, threshold, roles), steps);
    TouchedLive(Run(Init(bits, threshold, roles), steps), k, a);
  }

  /** What reclamation rests on, and that it loses nothing: every registered handle is at `base` or past it,
      reclaimers free disjoint ranges, and what lies before `base` is freed or about to be. */
  lemma {:induction false} ReclaimedExactly(bits: nat, threshold: int, roles: seq<Role>, steps: seq<Step>, j: nat, k: nat, q: nat)
    requires j < |roles| && k < |roles|
    ensures var m := Run(Init(bits, threshold, roles), steps).m;
      && |m.ts| == |roles|
      && (m.initId >= 0 ==> m.initId == m.base)
      && (m.ts[k].reg != Unregistered ==> On(m, m.ts[k].ptr) && m.base <= Id(m.nodes, m.ts[k].ptr))
      && (ToFree(m, m.ts[j].rec, q) && ToFree(m, m.ts[k].rec, q) ==> j == k)
      && (q < |m.chain| ==>
            && m.chain[q] < |m.nodes| && Id(m.nodes, m.chain[q]) == q && Next(m.nodes, m.chain[q]) == After(m.chain, q)
            && (m.nodes[m.chain[q]].freed <==> q < m.base && !BeingFreed(m, q)))
  {
    var s := Run(Init(bits, threshold, roles), steps);
    InitKeeps(bits, threshold, roles);
    RunKeeps(Init(bits, threshold, roles), steps);
    RunThreads(Init(bits, threshold, roles), steps);
    assert ThreadOk(s.y, s.m, k);
  }

  lemma {:induction false} RunThreads(s: State, steps: seq<Step>)
    requires Inv(s)
    ensures |Run(s, steps).y.pcs| == |s.y.pcs|
    decreases |steps|
  {
    if steps != [] {
      var before := Run(s, steps[..|steps| - 1]);
      RunThreads(s, steps[..|steps| - 1]);
      RunKeeps(s, steps[..|steps| - 1]);
      SameThreads(before, steps[|steps| - 1]);
    }
  }

  lemma {:induction false} SameThreads(s: State, step: Step)
    ensures |Take(s, step).y.pcs| == |s.y.pcs|
  {
  }
}
