/** Every step of every thread keeps the invariant of the queue. */
module MpmcSteps {
  import opened Arithmetic
  import opened Options
  import opened MpmcSync
  import opened Mpmc
  import opened MpmcMemory
  import opened MpmcHeap
  import opened MpmcReclaim

  // ----- where the cell of a ticket is

  lemma {:induction false} SegmentMono(m: Memory, i: nat, j: nat)
    requires i <= j
    ensures Segment(m, i) <= Segment(m, j)
  {
    QuotientMono(i, j, N(m));
  }

  /** Two tickets of one segment use different cells of it. */
  lemma {:induction false} SlotsApart(m: Memory, t: nat, u: nat)
    requires t != u && Segment(m, t) == Segment(m, u)
    ensures Slot(m, t) != Slot(m, u)
  {
    MaskIsRemainder(t, m.bits);
    MaskIsRemainder(u, m.bits);
    QuotientRemainder(t, N(m));
    QuotientRemainder(u, N(m));
  }

  lemma {:induction false} SlotFits(m: Memory, t: nat)
    ensures Slot(m, t) < N(m)
  {
    MaskIsRemainder(t, m.bits);
  }

  lemma {:induction false} Here(m: Memory, k: nat, t: nat)
    requires k < |m.ts| && On(m, m.ts[k].ptr) && Id(m.nodes, m.ts[k].ptr) == Segment(m, t)
    ensures CellHere(m, k, t) == CellOf(m, t)
  {
  }

  lemma {:induction false} StoreCells(m: Memory, k: nat, t: nat, c: Cell, u: nat)
    requires ChainOk(m) && k < |m.ts| && On(m, m.ts[k].ptr) && Id(m.nodes, m.ts[k].ptr) == Segment(m, t)
    ensures CellOf(Store(m, k, t, c), u) == if u == t then c else CellOf(m, u)
  {
    SlotFits(m, t);
    if u != t && Segment(m, u) == Segment(m, t) {
      SlotsApart(m, t, u);
    }
  }

  lemma {:induction false} SamePaired(y: Sync, cells: nat -> Cell, cells': nat -> Cell)
    requires Paired(y, cells) && forall u: nat :: cells'(u) == cells(u)
    ensures Paired(y, cells')
  {
    forall k | 0 <= k < |y.pcs| ensures PcOk(y, cells', k) {
      assert PcOk(y, cells, k);
    }
    forall t: nat ensures CellOk(y, cells'(t), t) {
      assert CellOk(y, cells(t), t);
    }
  }

  // ----- the threads that do not move

  lemma {:induction false} OtherThread(y: Sync, y': Sync, m: Memory, m': Memory, j: nat)
    requires j < |m.ts| == |m'.ts| == |y.pcs| == |y'.pcs| && ThreadOk(y, m, j)
    requires m'.ts[j] == m.ts[j] && y'.pcs[j] == y.pcs[j] && Extends(m, m') && y.put <= y'.put && y.pop <= y'.pop
    requires m.ts[j].reg != Unregistered ==> m'.base <= Id(m.nodes, m.ts[j].ptr)
    ensures ThreadOk(y', m', j)
  {
    SegmentMono(m, y.put, y'.put);
    SegmentMono(m, y.pop, y'.pop);
    if m.ts[j].reg != Unregistered {
      PlaceKept(m, m', m.ts[j], y.pcs[j], Bound(y, m, j), Bound(y', m', j));
    }
  }

  lemma {:induction false} HandlesOn(y: Sync, m: Memory)
    requires ThreadsOk(y, m) && RegistrationOk(y, m)
    ensures TablesOn(m)
  {
    forall role: Role, l | 0 <= l < |Table(m, role)|
      ensures On(m, Ptr(m, Table(m, role)[l])) && m.base <= Id(m.nodes, Ptr(m, Table(m, role)[l])) {
      var j := Table(m, role)[l];
      assert Joined(m.ts[j]) && ThreadOk(y, m, j);
    }
  }

  // ----- steps of the hand-over that access no segment

  /** How the place of a thread in its operation may change while the segments stay as they are. */
  predicate Moves(p: Pc, p': Pc, find: Finder) {
    || p' == p
    || (p.Clear? && p'.Wake?)
    || (p.Wake? && p'.Idle?)
    || (Takes(p) && Takes(p') && !p'.Get? && p'.t == p.t && find == Rest && !p.Have?)
  }

  lemma {:induction false} SyncStep(y: Sync, y': Sync, m: Memory, cells: nat -> Cell)
    requires ThreadsOk(y, m) && RegistrationOk(y, m) && Paired(y, cells)
    requires y'.put == y.put && y'.pop == y.pop && |y'.pcs| == |y.pcs| == |y'.flag|
    requires forall j :: 0 <= j < |y.pcs| ==> Moves(y.pcs[j], y'.pcs[j], m.ts[j].find)
    ensures ThreadsOk(y', m) && RegistrationOk(y', m)
  {
    forall j | 0 <= j < |m.ts| ensures ThreadOk(y', m, j) {
      assert ThreadOk(y, m, j) && PcOk(y, cells, j);
      if y.pcs[j].Get? {
        SegmentMono(m, y.pcs[j].t, y.pop);
      }
    }
  }

  // ----- steps that change segments or handles

  lemma {:induction false} RegistrationSame(y: Sync, y': Sync, m: Memory, m': Memory)
    requires RegistrationOk(y, m) && m'.enqs == m.enqs && m'.deqs == m.deqs && |m'.ts| == |m.ts|
    requires forall j :: 0 <= j < |m.ts| ==> m'.ts[j].reg == m.ts[j].reg && m'.ts[j].role == m.ts[j].role
    requires y'.put > 0 ==> AllJoined(m.ts, Enqueuer)
    requires y'.pop > 0 ==> AllJoined(m.ts, Dequeuer)
    requires m'.base > 0 || m'.initId < 0 ==> y'.put > 0 && y'.pop > 0
    ensures RegistrationOk(y', m')
  {
  }

  lemma {:induction false} OthersStay(y: Sync, y': Sync, m: Memory, m': Memory, k: nat)
    requires ThreadsOk(y, m) && |m.ts| == |m'.ts| == |y'.pcs| == |y'.flag| && k < |m.ts| && Extends(m, m') && m'.base == m.base
    requires y.put <= y'.put && y.pop <= y'.pop
    requires forall j :: 0 <= j < |m.ts| && j != k ==> m'.ts[j] == m.ts[j] && y'.pcs[j] == y.pcs[j]
    requires ThreadOk(y', m', k)
    ensures ThreadsOk(y', m')
  {
    forall j | 0 <= j < |m.ts| ensures ThreadOk(y', m', j) {
      if j != k {
        assert ThreadOk(y, m, j);
        OtherThread(y, y', m, m', j);
      }
    }
  }

  /** The exchange on the cell of the own ticket. */
  lemma {:induction false} StoreThreads(y: Sync, y': Sync, m: Memory, k: nat, t: nat, c: Cell)
    requires ThreadsOk(y, m) && RegistrationOk(y, m) && k < |m.ts| && Extends(m, Store(m, k, t, c))
    requires Seeks(y.pcs[k]) && y.pcs[k].t == t < (if y.pcs[k].Put? then y.put else y.pop) && m.ts[k].find == Rest
    requires |y'.pcs| == |y.pcs| && y' == y.(pcs := y.pcs[k := y'.pcs[k]], sent := y'.sent)
    requires if y.pcs[k].Put? then y'.pcs[k].Idle? || y'.pcs[k].Clear? else Moves(y.pcs[k], y'.pcs[k], Rest) && !y'.pcs[k].Get?
    ensures ThreadsOk(y', Store(m, k, t, c)) && RegistrationOk(y', Store(m, k, t, c))
  {
    var m' := Store(m, k, t, c);
    assert ThreadOk(y, m, k);
    SegmentMono(m, t, if y.pcs[k].Put? then y.put else y.pop);
    OthersStay(y, y', m, m', k);
    RegistrationSame(y, y', m, m');
  }

  lemma {:induction false} SwapStep(s: State, k: nat)
    requires Inv(s) && k < |s.m.ts| && s.y.pcs[k].Put? && s.m.ts[k].find == Rest
    ensures Inv(Swap(s, k))
  {
    var s', p := Swap(s, k), s.y.pcs[k];
    assert ThreadOk(s.y, s.m, k) && PcOk(s.y, Cells(s.m), k);
    Here(s.m, k, p.t);
    forall u: nat ensures CellOf(s'.m, u) == if u == p.t then Val(p.v) else CellOf(s.m, u) {
      StoreCells(s.m, k, p.t, Val(p.v), u);
    }
    SwapInFinds(s.y, Cells(s.m), k);
    StoreHeap(s.m, k, p.t, Val(p.v));
    StoreThreads(s.y, s'.y, s.m, k, p.t, Val(p.v));
    SwapInPaired(s.y, Cells(s.m), Cells(s'.m), k);
  }

  lemma {:induction false} SwapFlagStep(s: State, k: nat)
    requires Inv(s) && k < |s.m.ts| && s.y.pcs[k].Get? && s.m.ts[k].find == Rest
    ensures Inv(Await(s, k, false))
  {
    var s', t := Await(s, k, false), s.y.pcs[k].t;
    assert ThreadOk(s.y, s.m, k) && PcOk(s.y, Cells(s.m), k);
    Here(s.m, k, t);
    forall u: nat ensures CellOf(s'.m, u) == if u == t then Flag(k) else CellOf(s.m, u) {
      StoreCells(s.m, k, t, Flag(k), u);
    }
    StoreHeap(s.m, k, t, Flag(k));
    StoreThreads(s.y, s'.y, s.m, k, t, Flag(k));
    SwapFlagPaired(s.y, Cells(s.m), Cells(s'.m), k);
  }

  /** The steps of the hand-over other than the two exchanges. */
  predicate Plain(p: Pc, patient: bool) {
    p.Clear? || p.Wake? || p.Read? || Parks(p) || (p.Get? && patient)
  }

  lemma {:induction false} PlainMoves(s: State, k: nat, patient: bool)
    requires |s.m.ts| == |s.y.pcs| == |s.y.flag| && k < |s.m.ts| && s.m.ts[k].find == Rest && Plain(s.y.pcs[k], patient)
    requires forall d :: 0 <= d < |s.m.ts| && s.y.pcs[d].Asleep? ==> s.m.ts[d].find == Rest
    ensures var y := Continue(s, k, patient).y;
      && y.put == s.y.put && y.pop == s.y.pop && |y.pcs| == |s.y.pcs| == |y.flag|
      && (forall j :: 0 <= j < |y.pcs| ==> Moves(s.y.pcs[j], y.pcs[j], s.m.ts[j].find))
  {
  }

  lemma {:induction false} PlainPaired(s: State, k: nat, patient: bool)
    requires MemoryOk(s) && Paired(s.y, Cells(s.m)) && k < |s.m.ts| && s.m.ts[k].find == Rest && Plain(s.y.pcs[k], patient)
    ensures Paired(Continue(s, k, patient).y, Cells(s.m))
  {
    var y, m, p := s.y, s.m, s.y.pcs[k];
    assert ThreadOk(y, m, k);
    if p.Read? || p.Get? {
      Here(m, k, p.t);
    }
    match p
    case Clear(_, _) => ClearFlagPaired(y, Cells(m), k);
    case Wake(_, _) => WakeUpPaired(y, Cells(m), k);
    case Read(_) => ReadCellPaired(y, Cells(m), k);
    case Get(_) => SpinPaired(y, Cells(m), k);
    case _ => WaitingPaired(y, Cells(m), k);
  }

  lemma {:induction false} PlainStep(s: State, k: nat, patient: bool)
    requires Inv(s) && k < |s.m.ts| && s.m.ts[k].find == Rest && Plain(s.y.pcs[k], patient)
    ensures Inv(Continue(s, k, patient))
  {
    forall d | 0 <= d < |s.m.ts| && s.y.pcs[d].Asleep? ensures s.m.ts[d].find == Rest {
      assert ThreadOk(s.y, s.m, d);
    }
    PlainMoves(s, k, patient);
    PlainPaired(s, k, patient);
    SyncStep(s.y, Continue(s, k, patient).y, s.m, Cells(s.m));
  }

  // ----- mpmc_find_cell

  /** Thread `k` moves along the segments; no segment changes. */
  lemma {:induction false} MoverStep(s: State, k: nat, y': Sync, th: Thread)
    requires MemoryOk(s) && k < |s.m.ts| && th.spare == s.m.ts[k].spare && th.rec == s.m.ts[k].rec
    requires th.reg == s.m.ts[k].reg && th.role == s.m.ts[k].role
    requires Id(s.m.nodes, s.m.ts[k].ptr) <= Id(s.m.nodes, th.ptr)
    requires |y'.pcs| == |s.y.pcs| == |y'.flag| && s.y.put <= y'.put && s.y.pop <= y'.pop
    requires forall j :: 0 <= j < |s.y.pcs| && j != k ==> y'.pcs[j] == s.y.pcs[j]
    requires y'.put > 0 ==> AllJoined(s.m.ts, Enqueuer)
    requires y'.pop > 0 ==> AllJoined(s.m.ts, Dequeuer)
    requires ThreadOk(y', With(s.m, k, th), k)
    ensures MemoryOk(State(y', With(s.m, k, th)))
  {
    var m' := With(s.m, k, th);
    MoveHeap(s.m, k, th);
    assert Extends(s.m, m');
    OthersStay(s.y, y', s.m, m', k);
    RegistrationSame(s.y, y', s.m, m');
  }

  lemma {:induction false} WithCells(y: Sync, m: Memory, k: nat, th: Thread)
    requires k < |m.ts| && Paired(y, Cells(m))
    ensures Paired(y, Cells(With(m, k, th)))
  {
    SamePaired(y, Cells(m), Cells(With(m, k, th)));
  }

  lemma {:induction false} WalkThread(y: Sync, m: Memory, k: nat)
    requires ChainOk(m) && k < |m.ts| == |y.pcs| && ThreadOk(y, m, k)
    requires Seeks(y.pcs[k]) && (m.ts[k].find.Load? || m.ts[k].find.Walk?)
    ensures var m' := FindCell(m, k, y.pcs[k].t);
      && m' == With(m, k, m'.ts[k]) && ThreadOk(y, m', k)
      && m'.ts[k] == m.ts[k].(ptr := m'.ts[k].ptr, find := m'.ts[k].find)
      && Id(m.nodes, m.ts[k].ptr) <= Id(m.nodes, m'.ts[k].ptr)
  {
    var find := m.ts[k].find;
    if find.Walk? {
      assert Next(m.nodes, m.chain[find.j]) == After(m.chain, find.j);
      if find.j + 1 < |m.chain| {
        assert Id(m.nodes, m.chain[find.j + 1]) == find.j + 1;
      }
    }
  }

  lemma {:induction false} WalkStep(s: State, k: nat)
    requires Inv(s) && k < |s.m.ts| && Seeks(s.y.pcs[k]) && (s.m.ts[k].find.Load? || s.m.ts[k].find.Walk?)
    ensures Inv(s.(m := FindCell(s.m, k, s.y.pcs[k].t)))
  {
    WalkThread(s.y, s.m, k);
    var th := FindCell(s.m, k, s.y.pcs[k].t).ts[k];
    MoverStep(s, k, s.y, th);
    WithCells(s.y, s.m, k, th);
  }

  // ----- a new segment

  lemma {:induction false} GrowCells(m: Memory, m': Memory, u: nat)
    requires ChainOk(m) && Grows(m, m')
    requires forall a :: 0 <= a < |m.nodes| ==> m'.nodes[a].cells == m.nodes[a].cells
    requires forall q, i :: |m.chain| <= q < |m'.chain| ==> CellIn(m'.nodes, m'.chain[q], i) == Null
    ensures CellOf(m', u) == CellOf(m, u)
  {
    var q := Segment(m, u);
    assert N(m') == N(m);
    if q < |m.chain| {
      assert m'.chain[q] == m.chain[q] && m.chain[q] < |m.nodes|;
    }
  }

  /** The part of `LinkSegment` that concerns memory, before the thread takes the next segment. */
  ghost function Linked(m: Memory, k: nat, curr: nat, id: nat): Memory
    requires k < |m.ts|
  {
    var m1 := if m.ts[k].spare == None then Allocated(m, k) else m;
    var tmp := m1.ts[k].spare.value;
    if tmp >= |m1.nodes| || curr >= |m1.nodes| then m
    else
      var m2 := Numbered(m1, tmp, id);
      if m2.nodes[curr].next == None then Hung(m2, k, curr, tmp) else m2
  }

  lemma {:induction false} LinkIsLinked(m: Memory, k: nat, curr: nat, j: nat)
    requires ChainOk(m) && SparesOk(m) && k < |m.ts| && On(m, curr)
    ensures var m' := Linked(m, k, curr, j + 1);
      && curr < |m'.nodes| && m'.nodes[curr].next.Some? && k < |m'.ts|
      && LinkSegment(m, k, curr, j) == With(m', k, m'.ts[k].(find := Walk(m'.nodes[curr].next.value, j + 1)))
      && m'.ts[k] == m.ts[k].(spare := m'.ts[k].spare)
  {
    var th := m.ts[k];
    if th.spare.Some? {
      assert SpareOk(m, th.spare.value);
    }
    var m1 := if th.spare == None then Allocated(m, k) else m;
    var m2 := Numbered(m1, m1.ts[k].spare.value, j + 1);
    var m3 := Linked(m, k, curr, j + 1);
    var next := m3.nodes[curr].next.value;
    assert LinkSegment(m, k, curr, j).ts == With(m3, k, m3.ts[k].(find := Walk(next, j + 1))).ts;
  }

  lemma {:induction false} GrowsTrans(m: Memory, m1: Memory, m2: Memory)
    requires Grows(m, m1) && Grows(m1, m2)
    ensures Grows(m, m2)
  {
    forall q | |m.chain| <= q < |m2.chain| ensures !On(m, m2.chain[q]) {
      if q < |m1.chain| {
        assert m2.chain[q] == m1.chain[q];
      }
    }
  }

  lemma {:induction false} GrowsTables(m: Memory, m': Memory)
    requires Grows(m, m') && TablesOn(m)
    ensures TablesOn(m')
  {
    forall role: Role, l | 0 <= l < |Table(m', role)|
      ensures On(m', Ptr(m', Table(m', role)[l])) && m'.base <= Id(m'.nodes, Ptr(m', Table(m', role)[l])) {
      assert Table(m', role) == Table(m, role);
      assert Ptr(m', Table(m, role)[l]) == Ptr(m, Table(m, role)[l]);
    }
  }

  /** From `m` on, segments have only been added, and cell `u` is as it was. */
  ghost predicate Added(m: Memory, m': Memory, u: nat) {
    HeapOk(m') && Grows(m, m') && TablesOn(m') && CellOf(m', u) == CellOf(m, u)
  }

  lemma {:induction false} AllocAdded(m: Memory, k: nat, u: nat)
    requires HeapOk(m) && k < |m.ts| && m.ts[k].spare == None && TablesOn(m)
    ensures Added(m, Allocated(m, k), u)
  {
    AllocHeap(m, k);
    GrowCells(m, Allocated(m, k), u);
    GrowsTables(m, Allocated(m, k));
  }

  lemma {:induction false} NumberAdded(m: Memory, k: nat, tmp: nat, id: nat, u: nat)
    requires HeapOk(m) && k < |m.ts| && m.ts[k].spare == Some(tmp) && tmp < |m.nodes| && TablesOn(m)
    ensures Added(m, Numbered(m, tmp, id), u)
  {
    NumberHeap(m, k, tmp, id);
    GrowCells(m, Numbered(m, tmp, id), u);
    GrowsTables(m, Numbered(m, tmp, id));
  }

  lemma {:induction false} HungAdded(m: Memory, k: nat, curr: nat, tmp: nat, u: nat)
    requires HeapOk(m) && k < |m.ts| && m.ts[k].spare == Some(tmp) && On(m, curr) && m.nodes[curr].next == None
    requires tmp < |m.nodes| && m.nodes[tmp].id == m.nodes[curr].id + 1 && TablesOn(m)
    ensures Added(m, Hung(m, k, curr, tmp), u)
  {
    HangHeap(m, k, curr, tmp);
    assert SpareOk(m, tmp);
    GrowCells(m, Hung(m, k, curr, tmp), u);
    GrowsTables(m, Hung(m, k, curr, tmp));
  }

  lemma {:induction false} AddedTrans(m: Memory, m1: Memory, m2: Memory, u: nat)
    requires Added(m, m1, u) && Added(m1, m2, u)
    ensures Added(m, m2, u)
  {
    GrowsTrans(m, m1, m2);
  }

  lemma {:induction false} SpareAdded(m: Memory, k: nat, curr: nat, id: nat, u: nat) returns (m2: Memory, tmp: nat)
    requires HeapOk(m) && TablesOn(m) && k < |m.ts| && On(m, curr)
    ensures Added(m, m2, u) && k < |m2.ts| && m2.ts[k].spare == Some(tmp) && tmp < |m2.nodes| && On(m2, curr)
    ensures m2.nodes[tmp].id == id && Id(m2.nodes, curr) == Id(m.nodes, curr)
    ensures Linked(m, k, curr, id) == if m2.nodes[curr].next == None then Hung(m2, k, curr, tmp) else m2
  {
    var m1 := m;
    if m.ts[k].spare == None {
      m1 := Allocated(m, k);
      AllocAdded(m, k, u);
    }
    tmp := m1.ts[k].spare.value;
    assert SpareOk(m1, tmp);
    m2 := Numbered(m1, tmp, id);
    NumberAdded(m1, k, tmp, id, u);
    if m.ts[k].spare == None {
      AddedTrans(m, m1, m2, u);
    }
  }

  lemma {:induction false} HungFrom(m: Memory, m2: Memory, k: nat, curr: nat, tmp: nat, u: nat)
    requires Added(m, m2, u) && k < |m2.ts| && m2.ts[k].spare == Some(tmp) && On(m2, curr) && m2.nodes[curr].next == None
    requires tmp < |m2.nodes| && m2.nodes[tmp].id == m2.nodes[curr].id + 1
    ensures Added(m, Hung(m2, k, curr, tmp), u)
  {
    HungAdded(m2, k, curr, tmp, u);
    AddedTrans(m, m2, Hung(m2, k, curr, tmp), u);
  }

  /** Taking a spare segment, numbering it and trying to hang it behind `curr` loses no cell and no segment. */
  lemma {:induction false} LinkedAdded(m: Memory, k: nat, curr: nat, id: nat, u: nat)
    requires HeapOk(m) && TablesOn(m) && k < |m.ts| && On(m, curr) && id == Id(m.nodes, curr) + 1
    ensures Added(m, Linked(m, k, curr, id), u)
  {
    var m2, tmp := SpareAdded(m, k, curr, id, u);
    if m2.nodes[curr].next == None {
      HungFrom(m, m2, k, curr, tmp, u);
    }
  }

  lemma {:induction false} LinkThread(y: Sync, m: Memory, m': Memory, k: nat, curr: nat, j: nat)
    requires ChainOk(m') && k < |m.ts| == |y.pcs| && ThreadOk(y, m, k) && Seeks(y.pcs[k]) && m.ts[k].find == Link(curr, j)
    requires Grows(m, m') && m'.ts[k] == m.ts[k].(spare := m'.ts[k].spare)
    requires curr < |m'.nodes| && m'.nodes[curr].next.Some?
    ensures ThreadOk(y, With(m', k, m'.ts[k].(find := Walk(m'.nodes[curr].next.value, j + 1))), k)
  {
    assert On(m', curr) && Id(m'.nodes, curr) == j;
    assert Next(m'.nodes, m'.chain[j]) == After(m'.chain, j);
    assert Id(m'.nodes, m'.chain[j + 1]) == j + 1;
  }

  lemma {:induction false} LinkThreads(y: Sync, m: Memory, m': Memory, k: nat, curr: nat, j: nat)
    requires ThreadsOk(y, m) && RegistrationOk(y, m) && k < |m.ts| == |m'.ts| && ChainOk(m') && Grows(m, m')
    requires forall l :: 0 <= l < |m.ts| && l != k ==> m'.ts[l] == m.ts[l]
    requires m'.ts[k] == m.ts[k].(spare := m'.ts[k].spare) && curr < |m'.nodes| && m'.nodes[curr].next.Some?
    requires Seeks(y.pcs[k]) && m.ts[k].find == Link(curr, j)
    ensures var m'' := With(m', k, m'.ts[k].(find := Walk(m'.nodes[curr].next.value, j + 1)));
      ThreadsOk(y, m'') && RegistrationOk(y, m'')
  {
    var m'' := With(m', k, m'.ts[k].(find := Walk(m'.nodes[curr].next.value, j + 1)));
    assert ThreadOk(y, m, k);
    LinkThread(y, m, m', k, curr, j);
    assert Extends(m, m'');
    OthersStay(y, y, m, m'', k);
    RegistrationSame(y, y, m, m'');
  }

  lemma {:induction false} LinkedOthers(m: Memory, k: nat, curr: nat, id: nat)
    requires k < |m.ts|
    ensures var m' := Linked(m, k, curr, id); |m'.ts| == |m.ts| && forall j :: 0 <= j < |m.ts| && j != k ==> m'.ts[j] == m.ts[j]
  {
  }

  lemma {:induction false} LinkCells(y: Sync, m: Memory, k: nat, curr: nat, j: nat)
    requires Paired(y, Cells(m)) && HeapOk(m) && TablesOn(m) && k < |m.ts| && On(m, curr) && j == Id(m.nodes, curr)
    ensures Paired(y, Cells(LinkSegment(m, k, curr, j)))
  {
    var m' := Linked(m, k, curr, j + 1);
    forall u: nat ensures CellOf(m', u) == CellOf(m, u) {
      LinkedAdded(m, k, curr, j + 1, u);
    }
    SamePaired(y, Cells(m), Cells(m'));
    LinkIsLinked(m, k, curr, j);
    WithCells(y, m', k, m'.ts[k].(find := Walk(m'.nodes[curr].next.value, j + 1)));
  }

  lemma {:induction false} LinkHeapStep(m: Memory, k: nat, curr: nat, j: nat)
    requires HeapOk(m) && TablesOn(m) && k < |m.ts| && On(m, curr) && j == Id(m.nodes, curr)
    ensures HeapOk(LinkSegment(m, k, curr, j)) && HeapOk(Linked(m, k, curr, j + 1)) && Grows(m, Linked(m, k, curr, j + 1))
  {
    var m' := Linked(m, k, curr, j + 1);
    LinkedAdded(m, k, curr, j + 1, 0);
    LinkIsLinked(m, k, curr, j);
    MoveHeap(m', k, m'.ts[k].(find := Walk(m'.nodes[curr].next.value, j + 1)));
  }

  lemma {:induction false} LinkThreadsStep(y: Sync, m: Memory, k: nat, curr: nat, j: nat)
    requires HeapOk(m) && TablesOn(m) && k < |m.ts| && On(m, curr) && j == Id(m.nodes, curr)
    requires ThreadsOk(y, m) && RegistrationOk(y, m) && Seeks(y.pcs[k]) && m.ts[k].find == Link(curr, j)
    ensures ThreadsOk(y, LinkSegment(m, k, curr, j)) && RegistrationOk(y, LinkSegment(m, k, curr, j))
  {
    LinkHeapStep(m, k, curr, j);
    LinkIsLinked(m, k, curr, j);
    LinkedOthers(m, k, curr, j + 1);
    LinkThreads(y, m, Linked(m, k, curr, j + 1), k, curr, j);
  }

  lemma {:induction false} LinkStep(s: State, k: nat)
    requires Inv(s) && k < |s.m.ts| && Seeks(s.y.pcs[k]) && s.m.ts[k].find.Link?
    ensures Inv(s.(m := FindCell(s.m, k, s.y.pcs[k].t)))
  {
    var curr, j := s.m.ts[k].find.curr, s.m.ts[k].find.j;
    assert ThreadOk(s.y, s.m, k);
    HandlesOn(s.y, s.m);
    LinkHeapStep(s.m, k, curr, j);
    LinkThreadsStep(s.y, s.m, k, curr, j);
    LinkCells(s.y, s.m, k, curr, j);
  }
}
