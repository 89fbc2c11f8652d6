/** The hand-over of `mpmc.c`: tickets, one cell per ticket, and the flags dequeuers sleep on.
    Where the cells live does not matter here: a step that accesses the cell of its ticket
    is given the content it finds, and says what it leaves. */
module MpmcSync {
  /** A `void *` cell: NULL, a value, or the address of the flag of a waiting dequeuer. */
  datatype Cell = Null | Val(v: int) | Flag(d: nat)

  datatype Pc =
    | Idle
    // mpmc_enqueue
    | Put(v: int, t: nat)
    | Clear(t: nat, d: nat)
    | Wake(t: nat, d: nat)
    | Wild                       // a value was taken for the address of a flag
    // mpmc_dequeue
    | Get(t: nat)
    | Wait(t: nat)
    | Asleep(t: nat)
    | Check(t: nat)
    | Read(t: nat)
    | Have(t: nat, c: Cell)

  /** `vals` records what each enqueue was asked to store, `sent` which of them have reached their
      cell, `got` what each completed dequeue returned. `flag[k]` says that `futex_addr` of thread `k` is 1. */
  datatype Sync = Sync(
    put: nat, pop: nat, pcs: seq<Pc>, flag: seq<bool>,
    vals: map<nat, int>, sent: set<nat>, got: map<nat, Cell>)

  // ----- the steps

  function StartPut(y: Sync, k: nat, v: int): Sync
    requires k < |y.pcs|
  {
    y.(put := y.put + 1, pcs := y.pcs[k := Put(v, y.put)], vals := y.vals[y.put := v])
  }

  /** `__atomic_exchange_n(c, v)` of the enqueuer, which finds `c`. */
  function SwapIn(y: Sync, k: nat, c: Cell): Sync
    requires k < |y.pcs| && y.pcs[k].Put?
  {
    var t := y.pcs[k].t;
    y.(sent := y.sent + {t},
       pcs := y.pcs[k := match c case Null => Idle case Flag(d) => Clear(t, d) case Val(_) => Wild])
  }

  function ClearFlag(y: Sync, k: nat): Sync
    requires k < |y.pcs| && y.pcs[k].Clear?
  {
    var d := y.pcs[k].d;
    y.(flag := if d < |y.flag| then y.flag[d := false] else y.flag, pcs := y.pcs[k := Wake(y.pcs[k].t, d)])
  }

  /** What `FUTEX_WAKE` on the flag of `d` does to its thread. */
  function Woken(pcs: seq<Pc>, d: nat): seq<Pc> {
    if d < |pcs| && pcs[d].Asleep? then pcs[d := Check(pcs[d].t)] else pcs
  }

  function WakeUp(y: Sync, k: nat): Sync
    requires k < |y.pcs| && y.pcs[k].Wake?
  {
    y.(pcs := Woken(y.pcs[k := Idle], y.pcs[k].d))
  }

  function StartGet(y: Sync, k: nat): Sync
    requires k < |y.pcs| == |y.flag|
  {
    y.(pop := y.pop + 1, pcs := y.pcs[k := Get(y.pop)], flag := y.flag[k := true])
  }

  /** One look at the cell while spinning. */
  function Spin(y: Sync, k: nat, c: Cell): Sync
    requires k < |y.pcs| && y.pcs[k].Get?
  {
    if c == Null then y else y.(pcs := y.pcs[k := Have(y.pcs[k].t, c)])
  }

  /** `__atomic_exchange_n(c, &futex_addr)` of the dequeuer, which finds `c`. */
  function SwapFlag(y: Sync, k: nat, c: Cell): Sync
    requires k < |y.pcs| && y.pcs[k].Get?
  {
    var t := y.pcs[k].t;
    y.(pcs := y.pcs[k := if c == Null then Wait(t) else Have(t, c)])
  }

  /** `FUTEX_WAIT` on the own flag, and the test of the flag after it. */
  function Waiting(y: Sync, k: nat): Sync
    requires k < |y.pcs| == |y.flag|
  {
    match y.pcs[k]
    case Wait(t) => y.(pcs := y.pcs[k := if y.flag[k] then Asleep(t) else Check(t)])
    case Asleep(t) => y.(pcs := y.pcs[k := Check(t)])     // a spurious wake-up
    case Check(t) => y.(pcs := y.pcs[k := if y.flag[k] then Wait(t) else Read(t)])
    case _ => y
  }

  function ReadCell(y: Sync, k: nat, c: Cell): Sync
    requires k < |y.pcs| && y.pcs[k].Read?
  {
    y.(pcs := y.pcs[k := Have(y.pcs[k].t, c)])
  }

  function Return(y: Sync, k: nat): Sync
    requires k < |y.pcs| && y.pcs[k].Have?
  {
    y.(pcs := y.pcs[k := Idle], got := y.got[y.pcs[k].t := y.pcs[k].c])
  }

  // ----- what every state satisfies

  /** Its flag is in the cell of its ticket, or was. */
  predicate Parks(p: Pc) {
    p.Wait? || p.Asleep? || p.Check?
  }

  predicate Serves(p: Pc) {
    p.Put? || p.Clear?
  }

  predicate Takes(p: Pc) {
    p.Get? || p.Read? || p.Have? || Parks(p)
  }

  ghost predicate ClearOwed(y: Sync, t: nat, d: nat) {
    exists e :: 0 <= e < |y.pcs| && y.pcs[e] == Clear(t, d)
  }

  ghost predicate WakeOwed(y: Sync, d: nat) {
    exists e :: 0 <= e < |y.pcs| && y.pcs[e].Wake? && y.pcs[e].d == d
  }

  /** The content of a cell its dequeuer has not touched. */
  ghost predicate Untouched(y: Sync, t: nat, c: Cell) {
    if t in y.sent then t in y.vals && c == Val(y.vals[t]) else c == Null
  }

  /** A dequeuer whose flag is in cell `c` waits for a value, or for the enqueuer that brought it to
      clear the flag, or has only to wake up. */
  ghost predicate ParkOk(y: Sync, c: Cell, k: nat)
    requires k < |y.pcs| == |y.flag| && Parks(y.pcs[k])
  {
    var t := y.pcs[k].t;
    && (t !in y.sent ==> c == Flag(k) && y.flag[k])
    && (t in y.sent ==> Untouched(y, t, c) && (y.flag[k] ==> ClearOwed(y, t, k)))
    && (y.pcs[k].Asleep? && !y.flag[k] ==> WakeOwed(y, k))
  }

  ghost predicate PcOk(y: Sync, cells: nat -> Cell, k: nat)
    requires k < |y.pcs| == |y.flag|
  {
    match y.pcs[k]
    case Idle => true
    case Put(v, t) => t < y.put && t !in y.sent && t in y.vals && y.vals[t] == v
    case Clear(t, d) => t < y.put && t in y.sent && d < |y.pcs| && Parks(y.pcs[d]) && y.pcs[d].t == t && y.flag[d]
    case Wake(t, d) => d < |y.pcs|
    case Wild => false
    case Get(t) => t < y.pop && y.flag[k] && Untouched(y, t, cells(t))
    case Read(t) => t < y.pop && t in y.sent && Untouched(y, t, cells(t))
    case Have(t, c) => t < y.pop && t in y.sent && Untouched(y, t, c)
    case _ => y.pcs[k].t < y.pop && ParkOk(y, cells(y.pcs[k].t), k)
  }

  ghost predicate SomeTaker(y: Sync, t: nat) {
    exists d :: 0 <= d < |y.pcs| && Takes(y.pcs[d]) && y.pcs[d].t == t
  }

  /** A cell whose dequeue has not begun is untouched by it; one whose dequeue has begun
      but whose value has not arrived still has that dequeue waiting for it. */
  ghost predicate CellOk(y: Sync, c: Cell, t: nat) {
    if t >= y.pop then Untouched(y, t, c) else t in y.sent || SomeTaker(y, t)
  }

  predicate Clash(p: Pc, q: Pc) {
    ((Serves(p) && Serves(q)) || (Takes(p) && Takes(q))) && p.t == q.t
  }

  /** No two threads hold the same ticket of the same kind. */
  ghost predicate Alone(y: Sync) {
    forall j, k :: 0 <= j < |y.pcs| && 0 <= k < |y.pcs| && j != k ==> !Clash(y.pcs[j], y.pcs[k])
  }

  ghost predicate HistoryOk(y: Sync) {
    && (forall t: nat :: t in y.vals <==> t < y.put)
    && (forall t: nat :: t in y.sent ==> t < y.put)
    && (forall t: nat :: t in y.got ==> t < y.pop && t in y.sent && t in y.vals && y.got[t] == Val(y.vals[t]))
    && (forall k :: 0 <= k < |y.pcs| && Takes(y.pcs[k]) ==> y.pcs[k].t !in y.got)
  }

  ghost predicate PcsOk(y: Sync, cells: nat -> Cell)
    requires |y.flag| == |y.pcs|
  {
    forall k :: 0 <= k < |y.pcs| ==> PcOk(y, cells, k)
  }

  ghost predicate Paired(y: Sync, cells: nat -> Cell) {
    && |y.flag| == |y.pcs|
    && PcsOk(y, cells)
    && (forall t: nat :: CellOk(y, cells(t), t))
    && Alone(y)
    && HistoryOk(y)
  }

  ghost predicate SameBut(cells: nat -> Cell, cells': nat -> Cell, t: nat) {
    forall u: nat :: u != t ==> cells'(u) == cells(u)
  }

  // ----- every step keeps it

  lemma {:induction false} OwedKept(y: Sync, y': Sync, k: nat)
    requires k < |y.pcs| == |y'.pcs| && !y.pcs[k].Clear? && !y.pcs[k].Wake?
    requires forall j :: 0 <= j < |y.pcs| && j != k ==> y'.pcs[j] == y.pcs[j]
    ensures forall t, d :: ClearOwed(y, t, d) ==> ClearOwed(y', t, d)
    ensures forall d :: WakeOwed(y, d) ==> WakeOwed(y', d)
  {
    forall t, d | ClearOwed(y, t, d) ensures ClearOwed(y', t, d) {
      var e :| 0 <= e < |y.pcs| && y.pcs[e] == Clear(t, d);
      assert y'.pcs[e] == Clear(t, d);
    }
    forall d | WakeOwed(y, d) ensures WakeOwed(y', d) {
      var e :| 0 <= e < |y.pcs| && y.pcs[e].Wake? && y.pcs[e].d == d;
      assert y'.pcs[e].d == d;
    }
  }

  lemma {:induction false} TakerKept(y: Sync, y': Sync, k: nat, t: nat)
    requires k < |y.pcs| == |y'.pcs| && SomeTaker(y, t)
    requires forall j :: 0 <= j < |y.pcs| && j != k ==> y'.pcs[j] == y.pcs[j]
    requires Takes(y.pcs[k]) && y.pcs[k].t == t ==> Takes(y'.pcs[k]) && y'.pcs[k].t == t
    ensures SomeTaker(y', t)
  {
    var d :| 0 <= d < |y.pcs| && Takes(y.pcs[d]) && y.pcs[d].t == t;
    assert Takes(y'.pcs[d]) && y'.pcs[d].t == t;
  }

  lemma {:induction false} AloneKept(y: Sync, y': Sync, k: nat)
    requires Alone(y) && k < |y.pcs| == |y'.pcs|
    requires forall j :: 0 <= j < |y.pcs| && j != k ==> y'.pcs[j] == y.pcs[j] && !Clash(y.pcs[j], y'.pcs[k])
    ensures Alone(y')
  {
  }

  /** What keeps the claim about another thread. */
  ghost predicate Undisturbed(y: Sync, y': Sync, cells: nat -> Cell, cells': nat -> Cell, j: nat) {
    && |y'.pcs| == |y.pcs| == |y.flag| == |y'.flag| && j < |y.pcs| && y'.pcs[j] == y.pcs[j]
    && y.put <= y'.put && y.pop <= y'.pop && y'.flag[j] == y.flag[j]
    && (Serves(y.pcs[j]) || Takes(y.pcs[j]) ==>
          var t := y.pcs[j].t;
          && (t in y'.sent <==> t in y.sent)
          && (t in y.vals ==> t in y'.vals && y'.vals[t] == y.vals[t])
          && cells'(t) == cells(t))
    && (forall t, d :: ClearOwed(y, t, d) ==> ClearOwed(y', t, d))
    && (forall d :: WakeOwed(y, d) ==> WakeOwed(y', d))
    && (y.pcs[j].Clear? ==>
          var d := y.pcs[j].d;
          d < |y.pcs| ==> y'.flag[d] == y.flag[d] && (Parks(y.pcs[d]) ==> Parks(y'.pcs[d]) && y'.pcs[d].t == y.pcs[d].t))
  }

  lemma {:induction false} OtherPc(y: Sync, y': Sync, cells: nat -> Cell, cells': nat -> Cell, j: nat)
    requires Undisturbed(y, y', cells, cells', j) && PcOk(y, cells, j)
    ensures PcOk(y', cells', j)
  {
  }

  lemma {:induction false} StartPutPaired(y: Sync, cells: nat -> Cell, k: nat, v: int)
    requires Paired(y, cells) && k < |y.pcs| && y.pcs[k].Idle?
    ensures Paired(StartPut(y, k, v), cells)
  {
    var y' := StartPut(y, k, v);
    OwedKept(y, y', k);
    forall j | 0 <= j < |y'.pcs| && j != k ensures PcOk(y', cells, j) && !Clash(y.pcs[j], y'.pcs[k]) {
      assert PcOk(y, cells, j);
      OtherPc(y, y', cells, cells, j);
    }
    AloneKept(y, y', k);
    forall t: nat ensures CellOk(y', cells(t), t) {
      assert CellOk(y, cells(t), t);
      if SomeTaker(y, t) { TakerKept(y, y', k, t); }
    }
  }

  lemma {:induction false} StartGetPaired(y: Sync, cells: nat -> Cell, k: nat)
    requires Paired(y, cells) && k < |y.pcs| && y.pcs[k].Idle?
    ensures Paired(StartGet(y, k), cells)
  {
    var y' := StartGet(y, k);
    OwedKept(y, y', k);
    assert CellOk(y, cells(y.pop), y.pop);
    forall j | 0 <= j < |y'.pcs| && j != k ensures PcOk(y', cells, j) && !Clash(y.pcs[j], y'.pcs[k]) {
      assert PcOk(y, cells, j);
      OtherPc(y, y', cells, cells, j);
    }
    AloneKept(y, y', k);
    forall t: nat ensures CellOk(y', cells(t), t) {
      assert CellOk(y, cells(t), t);
      assert t == y.pop ==> Takes(y'.pcs[k]) && y'.pcs[k].t == t;
      if SomeTaker(y, t) { TakerKept(y, y', k, t); }
    }
  }

  /** The enqueuer finds the cell of its ticket empty, or the flag of the dequeuer that holds the same ticket. */
  lemma {:induction false} SwapInFinds(y: Sync, cells: nat -> Cell, k: nat)
    requires Paired(y, cells) && k < |y.pcs| && y.pcs[k].Put?
    ensures var t := y.pcs[k].t; var c := cells(t);
      || c == Null
      || (c.Flag? && c.d < |y.pcs| && Parks(y.pcs[c.d]) && y.pcs[c.d].t == t && y.flag[c.d])
  {
    var t := y.pcs[k].t;
    assert PcOk(y, cells, k) && CellOk(y, cells(t), t);
    if t < y.pop {
      var d :| 0 <= d < |y.pcs| && Takes(y.pcs[d]) && y.pcs[d].t == t;
      assert PcOk(y, cells, d);
    }
  }

  lemma {:induction false} SwapInOthers(y: Sync, cells: nat -> Cell, cells': nat -> Cell, k: nat, j: nat)
    requires Paired(y, cells) && k < |y.pcs| && y.pcs[k].Put? && j < |y.pcs| && j != k
    requires SameBut(cells, cells', y.pcs[k].t) && cells'(y.pcs[k].t) == Val(y.pcs[k].v)
    ensures PcOk(SwapIn(y, k, cells(y.pcs[k].t)), cells', j)
  {
    var t := y.pcs[k].t;
    var y' := SwapIn(y, k, cells(t));
    OwedKept(y, y', k);
    assert PcOk(y, cells, k) && PcOk(y, cells, j);
    if Takes(y.pcs[j]) && y.pcs[j].t == t {
      if Parks(y.pcs[j]) {
        assert cells(t) == Flag(j);
        assert y'.pcs[k] == Clear(t, j);
      }
    } else {
      assert !Clash(y.pcs[j], y.pcs[k]);
      OtherPc(y, y', cells, cells', j);
    }
  }

  lemma {:induction false} SwapInPaired(y: Sync, cells: nat -> Cell, cells': nat -> Cell, k: nat)
    requires Paired(y, cells) && k < |y.pcs| && y.pcs[k].Put?
    requires SameBut(cells, cells', y.pcs[k].t) && cells'(y.pcs[k].t) == Val(y.pcs[k].v)
    ensures Paired(SwapIn(y, k, cells(y.pcs[k].t)), cells')
  {
    var t := y.pcs[k].t;
    var y' := SwapIn(y, k, cells(t));
    assert PcOk(y, cells, k);
    SwapInFinds(y, cells, k);
    forall j | 0 <= j < |y'.pcs| && j != k ensures PcOk(y', cells', j) && !Clash(y.pcs[j], y'.pcs[k]) {
      assert !Clash(y.pcs[j], y.pcs[k]);
      SwapInOthers(y, cells, cells', k, j);
    }
    AloneKept(y, y', k);
    forall u: nat ensures CellOk(y', cells'(u), u) {
      assert CellOk(y, cells(u), u);
      if SomeTaker(y, u) { TakerKept(y, y', k, u); }
    }
  }

  lemma {:induction false} ClearFlagOthers(y: Sync, cells: nat -> Cell, k: nat, j: nat)
    requires Paired(y, cells) && k < |y.pcs| && y.pcs[k].Clear? && j < |y.pcs| && j != k
    ensures PcOk(ClearFlag(y, k), cells, j)
  {
    var y', d := ClearFlag(y, k), y.pcs[k].d;
    assert PcOk(y, cells, k) && PcOk(y, cells, j) && !Clash(y.pcs[j], y.pcs[k]);
    assert y'.pcs[k].Wake? && y'.pcs[k].d == d;
    if Parks(y.pcs[j]) && j != d {
      if ClearOwed(y, y.pcs[j].t, j) {
        var e :| 0 <= e < |y.pcs| && y.pcs[e] == Clear(y.pcs[j].t, j);
        assert y'.pcs[e] == Clear(y.pcs[j].t, j);
      }
      if WakeOwed(y, j) {
        var e :| 0 <= e < |y.pcs| && y.pcs[e].Wake? && y.pcs[e].d == j;
        assert y'.pcs[e].Wake? && y'.pcs[e].d == j;
      }
    }
  }

  lemma {:induction false} ClearFlagPaired(y: Sync, cells: nat -> Cell, k: nat)
    requires Paired(y, cells) && k < |y.pcs| && y.pcs[k].Clear?
    ensures Paired(ClearFlag(y, k), cells)
  {
    var y' := ClearFlag(y, k);
    assert PcOk(y, cells, k);
    forall j | 0 <= j < |y'.pcs| && j != k ensures PcOk(y', cells, j) && !Clash(y.pcs[j], y'.pcs[k]) {
      assert !Clash(y.pcs[j], y.pcs[k]);
      ClearFlagOthers(y, cells, k, j);
    }
    AloneKept(y, y', k);
    forall u: nat ensures CellOk(y', cells(u), u) {
      assert CellOk(y, cells(u), u);
      if SomeTaker(y, u) { TakerKept(y, y', k, u); }
    }
  }

  lemma {:induction false} WakeUpOthers(y: Sync, cells: nat -> Cell, k: nat, j: nat)
    requires Paired(y, cells) && k < |y.pcs| && y.pcs[k].Wake? && j < |y.pcs| && j != k
    ensures PcOk(WakeUp(y, k), cells, j)
  {
    var y', d := WakeUp(y, k), y.pcs[k].d;
    assert PcOk(y, cells, j);
    if y.pcs[j].Clear? {
      assert Parks(y'.pcs[y.pcs[j].d]);
    } else if Parks(y.pcs[j]) {
      if ClearOwed(y, y.pcs[j].t, j) {
        var e :| 0 <= e < |y.pcs| && y.pcs[e] == Clear(y.pcs[j].t, j);
        assert y'.pcs[e] == Clear(y.pcs[j].t, j);
      }
      if j != d && WakeOwed(y, j) {
        var e :| 0 <= e < |y.pcs| && y.pcs[e].Wake? && y.pcs[e].d == j;
        assert y'.pcs[e].Wake? && y'.pcs[e].d == j;
      }
    }
  }

  lemma {:induction false} WakeUpPaired(y: Sync, cells: nat -> Cell, k: nat)
    requires Paired(y, cells) && k < |y.pcs| && y.pcs[k].Wake?
    ensures Paired(WakeUp(y, k), cells)
  {
    var y' := WakeUp(y, k);
    forall j | 0 <= j < |y'.pcs| && j != k ensures PcOk(y', cells, j) {
      WakeUpOthers(y, cells, k, j);
    }
    assert forall j :: 0 <= j < |y.pcs| ==>
      Takes(y.pcs[j]) == Takes(y'.pcs[j]) && (Takes(y.pcs[j]) ==> y'.pcs[j].t == y.pcs[j].t);
    assert Alone(y') by {
      assert forall i, j :: 0 <= i < |y.pcs| && 0 <= j < |y.pcs| && Clash(y'.pcs[i], y'.pcs[j]) ==> Clash(y.pcs[i], y.pcs[j]);
    }
    forall u: nat ensures CellOk(y', cells(u), u) {
      assert CellOk(y, cells(u), u);
      if SomeTaker(y, u) {
        var d :| 0 <= d < |y.pcs| && Takes(y.pcs[d]) && y.pcs[d].t == u;
        assert Takes(y'.pcs[d]) && y'.pcs[d].t == u;
      }
    }
  }

  /** A step by which dequeuer `k` moves on with its ticket and touches no cell. */
  lemma {:induction false} TakerMoves(y: Sync, y': Sync, cells: nat -> Cell, k: nat)
    requires Paired(y, cells) && k < |y.pcs| == |y'.pcs| && y' == y.(pcs := y.pcs[k := y'.pcs[k]])
    requires Takes(y.pcs[k]) && Takes(y'.pcs[k]) && y'.pcs[k].t == y.pcs[k].t && PcOk(y', cells, k)
    requires Parks(y.pcs[k]) ==> Parks(y'.pcs[k]) || !y.flag[k]
    ensures Paired(y', cells)
  {
    OwedKept(y, y', k);
    forall j | 0 <= j < |y'.pcs| && j != k ensures PcOk(y', cells, j) && !Clash(y.pcs[j], y'.pcs[k]) {
      assert PcOk(y, cells, j) && !Clash(y.pcs[j], y.pcs[k]);
      assert y.pcs[j].Clear? && y.pcs[j].d == k ==> y.flag[k];
      OtherPc(y, y', cells, cells, j);
    }
    AloneKept(y, y', k);
    forall u: nat ensures CellOk(y', cells(u), u) {
      assert CellOk(y, cells(u), u);
      if SomeTaker(y, u) { TakerKept(y, y', k, u); }
    }
  }

  lemma {:induction false} SpinPaired(y: Sync, cells: nat -> Cell, k: nat)
    requires Paired(y, cells) && k < |y.pcs| && y.pcs[k].Get?
    ensures Paired(Spin(y, k, cells(y.pcs[k].t)), cells)
  {
    var y' := Spin(y, k, cells(y.pcs[k].t));
    assert PcOk(y, cells, k);
    if y' != y { TakerMoves(y, y', cells, k); }
  }

  lemma {:induction false} WaitingPaired(y: Sync, cells: nat -> Cell, k: nat)
    requires Paired(y, cells) && k < |y.pcs| && Parks(y.pcs[k])
    ensures Paired(Waiting(y, k), cells)
  {
    var y' := Waiting(y, k);
    assert PcOk(y, cells, k);
    OwedKept(y, y', k);
    TakerMoves(y, y', cells, k);
  }

  lemma {:induction false} ReadCellPaired(y: Sync, cells: nat -> Cell, k: nat)
    requires Paired(y, cells) && k < |y.pcs| && y.pcs[k].Read?
    ensures Paired(ReadCell(y, k, cells(y.pcs[k].t)), cells)
  {
    assert PcOk(y, cells, k);
    TakerMoves(y, ReadCell(y, k, cells(y.pcs[k].t)), cells, k);
  }

  lemma {:induction false} SwapFlagOthers(y: Sync, cells: nat -> Cell, cells': nat -> Cell, k: nat, j: nat)
    requires Paired(y, cells) && k < |y.pcs| && y.pcs[k].Get? && j < |y.pcs| && j != k
    requires SameBut(cells, cells', y.pcs[k].t) && cells'(y.pcs[k].t) == Flag(k)
    ensures PcOk(SwapFlag(y, k, cells(y.pcs[k].t)), cells', j)
  {
    var t := y.pcs[k].t;
    var y' := SwapFlag(y, k, cells(t));
    OwedKept(y, y', k);
    assert PcOk(y, cells, k) && PcOk(y, cells, j) && !Clash(y.pcs[j], y.pcs[k]);
    if y.pcs[j].Clear? {
      assert Parks(y'.pcs[y.pcs[j].d]);
    } else if !y.pcs[j].Put? {
      OtherPc(y, y', cells, cells', j);
    }
  }

  lemma {:induction false} SwapFlagPaired(y: Sync, cells: nat -> Cell, cells': nat -> Cell, k: nat)
    requires Paired(y, cells) && k < |y.pcs| && y.pcs[k].Get?
    requires SameBut(cells, cells', y.pcs[k].t) && cells'(y.pcs[k].t) == Flag(k)
    ensures Paired(SwapFlag(y, k, cells(y.pcs[k].t)), cells')
  {
    var t := y.pcs[k].t;
    var y' := SwapFlag(y, k, cells(t));
    assert PcOk(y, cells, k);
    forall j | 0 <= j < |y'.pcs| && j != k ensures PcOk(y', cells', j) && !Clash(y.pcs[j], y'.pcs[k]) {
      assert !Clash(y.pcs[j], y.pcs[k]);
      SwapFlagOthers(y, cells, cells', k, j);
    }
    AloneKept(y, y', k);
    forall u: nat ensures CellOk(y', cells'(u), u) {
      assert CellOk(y, cells(u), u);
      if SomeTaker(y, u) { TakerKept(y, y', k, u); }
    }
  }

  lemma {:induction false} ReturnPaired(y: Sync, cells: nat -> Cell, k: nat)
    requires Paired(y, cells) && k < |y.pcs| && y.pcs[k].Have?
    ensures y.pcs[k].t !in y.got && Paired(Return(y, k), cells)
  {
    var y', t := Return(y, k), y.pcs[k].t;
    OwedKept(y, y', k);
    assert PcOk(y, cells, k);
    forall j | 0 <= j < |y'.pcs| && j != k ensures PcOk(y', cells, j) && !Clash(y.pcs[j], y'.pcs[k]) {
      assert PcOk(y, cells, j) && !Clash(y.pcs[j], y.pcs[k]);
      OtherPc(y, y', cells, cells, j);
    }
    AloneKept(y, y', k);
    forall u: nat ensures CellOk(y', cells(u), u) {
      assert CellOk(y, cells(u), u);
      if SomeTaker(y, u) && u != t { TakerKept(y, y', k, u); }
    }
  }
}
