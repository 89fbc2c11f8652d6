/** Reclamation keeps the invariant of the segments: one thread at a time holds `init_id`, what it
    decides to free no handle can reach any more, and no segment is freed twice. */
module MpmcReclaim {
  import opened Arithmetic
  import opened Options
  import opened MpmcSync
  import opened Mpmc
  import opened MpmcMemory
  import opened MpmcHeap

  /** Thread `k` goes on to `r`, and stores in `init_node` and `init_id`. */
  function Goes(m: Memory, k: nat, r: Reclaim, initNode: nat, initId: int): Memory
    requires k < |m.ts|
  {
    With(m, k, m.ts[k].(rec := r)).(initNode := initNode, initId := initId)
  }

  lemma {:induction false} GoesLinks(m: Memory, k: nat, r: Reclaim, initNode: nat, initId: int)
    requires k < |m.ts| && ChainOk(m) && SparesOk(m)
    ensures var m' := Goes(m, k, r, initNode, initId);
      && Extends(m, m') && Forward(m, m') && ChainOk(m') && SparesOk(m')
      && (forall a: nat :: On(m', a) == On(m, a))
  {
    var m' := Goes(m, k, r, initNode, initId);
    assert forall j: nat :: Ptr(m', j) == Ptr(m, j);
    assert forall a: nat :: On(m', a) == On(m, a);
    forall l | 0 <= l < |m'.ts| && m'.ts[l].spare.Some? ensures SpareOk(m', m'.ts[l].spare.value) {
      assert SpareOk(m, m.ts[l].spare.value);
    }
  }

  lemma {:induction false} GoesRanges(m: Memory, k: nat, r: Reclaim, initNode: nat, initId: int)
    requires k < |m.ts| && RangesApart(m) && FreedOk(m) && !m.ts[k].rec.Free? && !r.Free?
    requires forall a: nat :: On(Goes(m, k, r, initNode, initId), a) == On(m, a)
    ensures RangesApart(Goes(m, k, r, initNode, initId)) && FreedOk(Goes(m, k, r, initNode, initId))
  {
    var m' := Goes(m, k, r, initNode, initId);
    forall j, q | 0 <= j < |m.ts| ensures ToFree(m', m'.ts[j].rec, q) == ToFree(m, m.ts[j].rec, q) {
    }
    forall q ensures BeingFreed(m', q) == BeingFreed(m, q) {
      if BeingFreed(m, q) {
        var j :| 0 <= j < |m.ts| && ToFree(m, m.ts[j].rec, q);
        assert ToFree(m', m'.ts[j].rec, q);
      }
      if BeingFreed(m', q) {
        var j :| 0 <= j < |m.ts| && ToFree(m', m'.ts[j].rec, q);
        assert ToFree(m, m.ts[j].rec, q);
      }
    }
  }

  /** The other threads hold nothing, or nothing changed for the one that does. */
  lemma {:induction false} GoesOthers(m: Memory, k: nat, r: Reclaim, initNode: nat, initId: int, j: nat)
    requires ChainOk(m) && SparesOk(m) && RecsOk(m) && k < |m.ts| && j < |m.ts| && j != k
    requires (initNode == m.initNode && initId == m.initId) || Holds(m.ts[k].rec) || m.initId >= 0
    ensures RecOk(Goes(m, k, r, initNode, initId), m.ts[j].rec)
  {
    GoesLinks(m, k, r, initNode, initId);
    assert RecOk(m, m.ts[j].rec);
    RecKept(m, Goes(m, k, r, initNode, initId), m.ts[j].rec);
  }

  lemma {:induction false} GoesHolders(m: Memory, k: nat, r: Reclaim, initNode: nat, initId: int)
    requires RecsOk(m) && k < |m.ts| && (Holds(r) ==> Holds(m.ts[k].rec) || m.initId >= 0)
    requires initId >= 0 || Holds(r) || (initId == m.initId && !Holds(m.ts[k].rec))
    ensures var m' := Goes(m, k, r, initNode, initId);
      && (initId < 0 ==> SomeHolder(m'))
      && forall i, j :: 0 <= i < |m.ts| && 0 <= j < |m.ts| && i != j && Holds(m'.ts[i].rec) ==> !Holds(m'.ts[j].rec)
  {
    var m' := Goes(m, k, r, initNode, initId);
    if initId < 0 {
      if Holds(r) {
        assert Holds(m'.ts[k].rec);
      } else {
        var j :| 0 <= j < |m.ts| && Holds(m.ts[j].rec);
        assert Holds(m'.ts[j].rec);
      }
    }
    forall i, j | 0 <= i < |m.ts| && 0 <= j < |m.ts| && i != j && Holds(m'.ts[i].rec) ensures !Holds(m'.ts[j].rec) {
      assert RecOk(m, m.ts[i].rec) && RecOk(m, m.ts[j].rec);
    }
  }

  lemma {:induction false} GoesRecs(m: Memory, k: nat, r: Reclaim, initNode: nat, initId: int)
    requires HeapOk(m) && k < |m.ts| && RecOk(Goes(m, k, r, initNode, initId), r)
    requires (initNode == m.initNode && initId == m.initId) || Holds(m.ts[k].rec) || m.initId >= 0
    requires Holds(r) ==> Holds(m.ts[k].rec) || m.initId >= 0
    requires if initId >= 0 then initId == m.base && initNode == Head(m) else Holds(r) || (initId == m.initId && !Holds(m.ts[k].rec))
    ensures RecsOk(Goes(m, k, r, initNode, initId))
  {
    var m' := Goes(m, k, r, initNode, initId);
    forall j | 0 <= j < |m.ts| ensures RecOk(m', m'.ts[j].rec) {
      if j != k {
        GoesOthers(m, k, r, initNode, initId, j);
      }
    }
    GoesHolders(m, k, r, initNode, initId);
  }

  lemma {:induction false} GoesHeap(m: Memory, k: nat, r: Reclaim, initNode: nat, initId: int)
    requires HeapOk(m) && k < |m.ts| && RecOk(Goes(m, k, r, initNode, initId), r)
    requires !m.ts[k].rec.Free? && !r.Free?
    requires (initNode == m.initNode && initId == m.initId) || Holds(m.ts[k].rec) || m.initId >= 0
    requires Holds(r) ==> Holds(m.ts[k].rec) || m.initId >= 0
    requires if initId >= 0 then initId == m.base && initNode == Head(m) else Holds(r) || (initId == m.initId && !Holds(m.ts[k].rec))
    ensures HeapOk(Goes(m, k, r, initNode, initId))
  {
    GoesLinks(m, k, r, initNode, initId);
    GoesRecs(m, k, r, initNode, initId);
    GoesRanges(m, k, r, initNode, initId);
  }

  // ----- the scan

  lemma {:induction false} LowerAbove(m: Memory, role: Role, i: nat, q: nat, q': nat)
    requires Above(m, role, i, q) && q' <= q
    ensures Above(m, role, i, q')
  {
  }

  /** The record a scan goes on to says no more than what has been looked at. */
  lemma {:induction false} ScanRec(m: Memory, k: nat)
    requires k < |m.ts| && RecOk(m, m.ts[k].rec) && m.ts[k].rec.Scanning? && TablesOn(m)
    ensures RecOk(m, ScanStep(m, k).ts[k].rec)
  {
    var r := m.ts[k].rec;
    var table := Table(m, r.role);
    if r.i < |table| {
      var next := Ptr(m, table[r.i]);
      assert On(m, next) && m.base <= Id(m.nodes, next);
      var min := if Id(m.nodes, next) < Id(m.nodes, r.min) then next else r.min;
      if Id(m.nodes, min) > r.init {
        LowerAbove(m, r.role, r.i, Id(m.nodes, r.min), Id(m.nodes, min));
        assert Above(m, r.role, r.i + 1, Id(m.nodes, min));
        if r.role == Enqueuer { LowerAbove(m, Dequeuer, |m.deqs|, Id(m.nodes, r.min), Id(m.nodes, min)); }
      }
    } else if Id(m.nodes, r.min) > m.base {
      assert Above(m, r.role, |table|, Id(m.nodes, r.min));
    }
  }

  // ----- the steps that hold, take or give back `init_id`

  lemma {:induction false} GoesRec(m: Memory, k: nat, r: Reclaim, initNode: nat, initId: int)
    requires HeapOk(m) && k < |m.ts| && RecOk(m, r) && initNode == m.initNode && initId == m.initId
    ensures RecOk(Goes(m, k, r, initNode, initId), r)
  {
    GoesLinks(m, k, r, initNode, initId);
    RecKept(m, Goes(m, k, r, initNode, initId), r);
  }

  lemma {:induction false} ScanHeap(m: Memory, k: nat)
    requires HeapOk(m) && k < |m.ts| && m.ts[k].rec.Scanning? && TablesOn(m)
    ensures HeapOk(ScanStep(m, k))
  {
    assert RecOk(m, m.ts[k].rec);
    ScanRec(m, k);
    var r := ScanStep(m, k).ts[k].rec;
    assert ScanStep(m, k) == Goes(m, k, r, m.initNode, m.initId);
    GoesRec(m, k, r, m.initNode, m.initId);
    GoesHeap(m, k, r, m.initNode, m.initId);
  }

  lemma {:induction false} ClaimHeap(m: Memory, k: nat, t: nat)
    requires HeapOk(m) && k < |m.ts| && (m.ts[k].rec.No? || m.ts[k].rec.Claim?)
    ensures HeapOk(Reclaiming(m, k, t))
  {
    var m' := Reclaiming(m, k, t);
    if m' != m {
      var r := m'.ts[k].rec;
      assert m' == Goes(m, k, r, m.initNode, m'.initId);
      GoesHeap(m, k, r, m.initNode, m'.initId);
    }
  }

  lemma {:induction false} LoadHeap(m: Memory, k: nat, t: nat)
    requires HeapOk(m) && k < |m.ts| && (m.ts[k].rec.LoadFirst? || m.ts[k].rec.LoadMin?) && TablesOn(m)
    ensures HeapOk(Reclaiming(m, k, t))
  {
    assert RecOk(m, m.ts[k].rec);
    var m' := Reclaiming(m, k, t);
    if m' != m {
      var r := m'.ts[k].rec;
      assert m' == Goes(m, k, r, m.initNode, m.initId);
      if r.Scanning? {
        assert Ptr(m, Table(m, Dequeuer)[0]) == r.min;
      }
      GoesRec(m, k, r, m.initNode, m.initId);
      GoesHeap(m, k, r, m.initNode, m.initId);
    }
  }

  lemma {:induction false} DecideHeap(m: Memory, k: nat, t: nat)
    requires HeapOk(m) && k < |m.ts| && m.ts[k].rec.Decide?
    ensures HeapOk(Reclaiming(m, k, t))
  {
    var m', min := Reclaiming(m, k, t), m.ts[k].rec.min;
    assert RecOk(m, m.ts[k].rec);
    var r := m'.ts[k].rec;
    assert m' == Goes(m, k, r, m'.initNode, m'.initId);
    if Id(m.nodes, min) > m.base {
      GoesLinks(m, k, r, m'.initNode, m'.initId);
      AboveKept(m, m', Enqueuer, |m.enqs|, Id(m.nodes, min));
      AboveKept(m, m', Dequeuer, |m.deqs|, Id(m.nodes, min));
    }
    GoesHeap(m, k, r, m'.initNode, m'.initId);
  }

  // ----- the new base, and the segments before it

  lemma {:induction false} PublishRecs(m: Memory, k: nat, t: nat)
    requires HeapOk(m) && k < |m.ts| && m.ts[k].rec.Publish?
    ensures RecsOk(Reclaiming(m, k, t))
  {
    var m', min := Reclaiming(m, k, t), m.ts[k].rec.min;
    assert RecOk(m, m.ts[k].rec);
    forall j | 0 <= j < |m.ts| ensures RecOk(m', m'.ts[j].rec) && !Holds(m'.ts[j].rec) {
      assert RecOk(m, m.ts[j].rec);
    }
  }

  lemma {:induction false} PublishRanges(m: Memory, k: nat, t: nat, j: nat, q: nat)
    requires HeapOk(m) && k < |m.ts| && m.ts[k].rec.Publish? && j < |m.ts|
    ensures var m' := Reclaiming(m, k, t);
      ToFree(m', m'.ts[j].rec, q) == if j == k then m.base <= q < m'.base else ToFree(m, m.ts[j].rec, q) && q < m.base
  {
    assert RecOk(m, m.ts[k].rec) && RecOk(m, m.ts[j].rec);
  }

  lemma {:induction false} PublishFreed(m: Memory, k: nat, t: nat, q: nat)
    requires HeapOk(m) && k < |m.ts| && m.ts[k].rec.Publish?
    ensures var m' := Reclaiming(m, k, t);
      (q < m'.base && !BeingFreed(m', q)) == (q < m.base && !BeingFreed(m, q))
  {
    var m' := Reclaiming(m, k, t);
    assert RecOk(m, m.ts[k].rec);
    if BeingFreed(m, q) {
      var j :| 0 <= j < |m.ts| && ToFree(m, m.ts[j].rec, q);
      assert RecOk(m, m.ts[j].rec);
      PublishRanges(m, k, t, j, q);
    }
    if BeingFreed(m', q) {
      var j :| 0 <= j < |m.ts| && ToFree(m', m'.ts[j].rec, q);
      PublishRanges(m, k, t, j, q);
    }
    PublishRanges(m, k, t, k, q);
  }

  lemma {:induction false} PublishApart(m: Memory, k: nat, t: nat)
    requires HeapOk(m) && k < |m.ts| && m.ts[k].rec.Publish?
    ensures RangesApart(Reclaiming(m, k, t))
  {
    var m' := Reclaiming(m, k, t);
    forall i, j, q | 0 <= i < |m.ts| && 0 <= j < |m.ts| && ToFree(m', m'.ts[i].rec, q) && ToFree(m', m'.ts[j].rec, q)
      ensures i == j {
      assert q >= 0;
      PublishRanges(m, k, t, i, q);
      PublishRanges(m, k, t, j, q);
    }
  }

  lemma {:induction false} PublishShape(m: Memory, k: nat, t: nat)
    requires ChainOk(m) && SparesOk(m) && FreedOk(m) && k < |m.ts| && m.ts[k].rec.Publish?
    ensures var m' := Reclaiming(m, k, t);
      && ChainOk(m') && SparesOk(m') && m'.nodes == m.nodes && m'.chain == m.chain
      && forall a: nat :: a < |m'.nodes| && !On(m', a) ==> !m'.nodes[a].freed
  {
    var m' := Reclaiming(m, k, t);
    assert forall a: nat :: On(m', a) == On(m, a);
    forall l | 0 <= l < |m'.ts| && m'.ts[l].spare.Some? ensures SpareOk(m', m'.ts[l].spare.value) {
      assert SpareOk(m, m.ts[l].spare.value);
    }
  }

  lemma {:induction false} PublishHeap(m: Memory, k: nat, t: nat)
    requires HeapOk(m) && k < |m.ts| && m.ts[k].rec.Publish?
    ensures HeapOk(Reclaiming(m, k, t))
  {
    var m' := Reclaiming(m, k, t);
    PublishRecs(m, k, t);
    PublishShape(m, k, t);
    PublishApart(m, k, t);
    forall q | 0 <= q < |m'.chain| && m'.chain[q] < |m'.nodes|
      ensures m'.nodes[m'.chain[q]].freed <==> q < m'.base && !BeingFreed(m', q) {
      PublishFreed(m, k, t, q);
    }
  }

  ghost predicate GoesOn(m: Memory, r: Reclaim, r': Reclaim) {
    && r.Free? && r'.Free? && r'.min == r.min && On(m, r.min) && On(m, r'.cur)
    && Id(m.nodes, r'.cur) == Id(m.nodes, r.cur) + 1 < Id(m.nodes, r.min)
  }

  /** The segment after `cur` is the next one to free, or the one to stop at. */
  lemma {:induction false} FreeNext(m: Memory, k: nat, t: nat)
    requires ChainOk(m) && k < |m.ts| && RecOk(m, m.ts[k].rec) && m.ts[k].rec.Free?
    ensures var m' := Reclaiming(m, k, t); var cur, min := m.ts[k].rec.cur, m.ts[k].rec.min;
      && On(m, cur) && Id(m.nodes, cur) < Id(m.nodes, min) <= m.base
      && m'.nodes == m.nodes[cur := m.nodes[cur].(freed := true)] && m' == With(m, k, m'.ts[k]).(nodes := m'.nodes)
      && m'.ts[k] == m.ts[k].(rec := m'.ts[k].rec)
      && (m'.ts[k].rec == No ==> Id(m.nodes, cur) + 1 == Id(m.nodes, min))
      && (m'.ts[k].rec != No ==> GoesOn(m, m.ts[k].rec, m'.ts[k].rec))
  {
    var q := Id(m.nodes, m.ts[k].rec.cur);
    ChainNext(m, q, m.ts[k].rec.cur);
  }

  /** Along the list the numbers are consecutive. */
  lemma {:induction false} ChainNext(m: Memory, q: nat, a: nat)
    requires ChainOk(m) && q + 1 < |m.chain| && a == m.chain[q]
    ensures a < |m.nodes| && m.nodes[a].next == Some(m.chain[q + 1])
    ensures On(m, m.chain[q + 1]) && Id(m.nodes, m.chain[q + 1]) == q + 1
  {
    ChainAt(m, q);
    ChainAt(m, q + 1);
  }

  lemma {:induction false} ChainAt(m: Memory, q: nat)
    requires ChainOk(m) && q < |m.chain|
    ensures m.chain[q] < |m.nodes| && m.nodes[m.chain[q]].id == q
    ensures m.nodes[m.chain[q]].next == if q + 1 < |m.chain| then Some(m.chain[q + 1]) else None
  {
    assert Next(m.nodes, m.chain[q]) == After(m.chain, q);
  }

  lemma {:induction false} FreeLinks(m: Memory, k: nat, t: nat)
    requires ChainOk(m) && k < |m.ts| && RecOk(m, m.ts[k].rec) && m.ts[k].rec.Free?
    ensures var m' := Reclaiming(m, k, t);
      && Extends(m, m') && Forward(m, m')
      && (forall a: nat :: On(m', a) == On(m, a) && Id(m'.nodes, a) == Id(m.nodes, a) && Next(m'.nodes, a) == Next(m.nodes, a))
  {
    FreeNext(m, k, t);
    FreedLinks(m, Reclaiming(m, k, t), k, m.ts[k].rec.cur);
  }

  /** Freeing a segment keeps its number and its link, and moves no handle. */
  lemma {:induction false} FreedLinks(m: Memory, m': Memory, k: nat, cur: nat)
    requires cur < |m.nodes| && k < |m.ts| == |m'.ts| && m'.nodes == m.nodes[cur := m.nodes[cur].(freed := true)]
    requires m' == With(m, k, m'.ts[k]).(nodes := m'.nodes) && m'.ts[k] == m.ts[k].(rec := m'.ts[k].rec)
    ensures Extends(m, m') && Forward(m, m')
    ensures forall a: nat :: On(m', a) == On(m, a) && Id(m'.nodes, a) == Id(m.nodes, a) && Next(m'.nodes, a) == Next(m.nodes, a)
  {
    assert forall a: nat :: Id(m'.nodes, a) == Id(m.nodes, a) && Next(m'.nodes, a) == Next(m.nodes, a);
    assert forall j: nat :: Ptr(m', j) == Ptr(m, j);
  }

  lemma {:induction false} FreeShape(m: Memory, k: nat, t: nat)
    requires ChainOk(m) && SparesOk(m) && k < |m.ts| && RecOk(m, m.ts[k].rec) && m.ts[k].rec.Free?
    ensures ChainOk(Reclaiming(m, k, t)) && SparesOk(Reclaiming(m, k, t))
  {
    var m' := Reclaiming(m, k, t);
    FreeNext(m, k, t);
    FreeLinks(m, k, t);
    forall l | 0 <= l < |m'.ts| && m'.ts[l].spare.Some? ensures SpareOk(m', m'.ts[l].spare.value) {
      assert SpareOk(m, m.ts[l].spare.value);
    }
  }

  lemma {:induction false} FreeRange(m: Memory, k: nat, t: nat, j: nat, q: nat)
    requires ChainOk(m) && RecsOk(m) && k < |m.ts| && m.ts[k].rec.Free? && j < |m.ts|
    ensures var m' := Reclaiming(m, k, t);
      ToFree(m', m'.ts[j].rec, q) == (ToFree(m, m.ts[j].rec, q) && !(j == k && q == Id(m.nodes, m.ts[k].rec.cur)))
  {
    FreeNext(m, k, t);
    FreeLinks(m, k, t);
  }

  lemma {:induction false} FreeFreed(m: Memory, k: nat, t: nat, q: nat)
    requires HeapOk(m) && k < |m.ts| && m.ts[k].rec.Free?
    ensures BeingFreed(Reclaiming(m, k, t), q) == (BeingFreed(m, q) && q != Id(m.nodes, m.ts[k].rec.cur))
  {
    var m', p := Reclaiming(m, k, t), Id(m.nodes, m.ts[k].rec.cur);
    FreeNext(m, k, t);
    assert ToFree(m, m.ts[k].rec, p);
    if BeingFreed(m, q) && q != p {
      var j :| 0 <= j < |m.ts| && ToFree(m, m.ts[j].rec, q);
      FreeRange(m, k, t, j, q);
      assert ToFree(m', m'.ts[j].rec, q);
    }
    if BeingFreed(m', q) {
      var j :| 0 <= j < |m'.ts| && ToFree(m', m'.ts[j].rec, q);
      FreeRange(m, k, t, j, q);
      assert ToFree(m, m.ts[j].rec, q);
    }
  }

  lemma {:induction false} FreeRec(m: Memory, k: nat, t: nat, j: nat)
    requires ChainOk(m) && RecsOk(m) && k < |m.ts| && m.ts[k].rec.Free? && j < |m.ts|
    ensures RecOk(Reclaiming(m, k, t), Reclaiming(m, k, t).ts[j].rec)
  {
    var m' := Reclaiming(m, k, t);
    assert RecOk(m, m.ts[k].rec);
    FreeNext(m, k, t);
    FreeLinks(m, k, t);
    if j != k {
      RecKept(m, m', m.ts[j].rec);
    }
  }

  lemma {:induction false} FreeHolders(m: Memory, m': Memory, k: nat)
    requires RecsOk(m) && k < |m.ts| == |m'.ts| && m.ts[k].rec.Free? && m'.ts == m.ts[k := m'.ts[k]] && !Holds(m'.ts[k].rec)
    requires m'.chain == m.chain && m'.base == m.base && m'.initId == m.initId && m'.initNode == m.initNode
    requires forall j :: 0 <= j < |m.ts| ==> RecOk(m', m'.ts[j].rec)
    ensures RecsOk(m')
  {
    if m.initId < 0 {
      var j :| 0 <= j < |m.ts| && Holds(m.ts[j].rec);
      assert Holds(m'.ts[j].rec);
    }
  }

  lemma {:induction false} FreeRecs(m: Memory, k: nat, t: nat)
    requires ChainOk(m) && RecsOk(m) && k < |m.ts| && m.ts[k].rec.Free?
    ensures RecsOk(Reclaiming(m, k, t))
  {
    var m' := Reclaiming(m, k, t);
    FreeNext(m, k, t);
    forall j | 0 <= j < |m.ts| ensures RecOk(m', m'.ts[j].rec) {
      FreeRec(m, k, t, j);
    }
    FreeHolders(m, m', k);
  }

  lemma {:induction false} FreeApart(m: Memory, k: nat, t: nat)
    requires HeapOk(m) && k < |m.ts| && m.ts[k].rec.Free?
    ensures RangesApart(Reclaiming(m, k, t))
  {
    var m' := Reclaiming(m, k, t);
    FreeNext(m, k, t);
    forall i, j, q | 0 <= i < |m.ts| && 0 <= j < |m.ts| && ToFree(m', m'.ts[i].rec, q) && ToFree(m', m'.ts[j].rec, q)
      ensures i == j {
      assert q >= 0;
      FreeRange(m, k, t, i, q);
      FreeRange(m, k, t, j, q);
    }
  }

  /** Segment `p` changes from being freed to freed. */
  lemma {:induction false} FreedFollows(m: Memory, m': Memory, p: nat)
    requires FreedOk(m) && m'.chain == m.chain && m'.base == m.base && |m'.nodes| == |m.nodes| && BeingFreed(m, p) && p < m.base
    requires forall q :: BeingFreed(m', q) == (BeingFreed(m, q) && q != p)
    requires forall q :: 0 <= q < |m.chain| && m.chain[q] < |m.nodes| ==>
      (m'.nodes[m.chain[q]].freed <==> m.nodes[m.chain[q]].freed || q == p)
    requires forall a: nat :: a < |m.nodes| && !On(m', a) ==> !On(m, a) && m'.nodes[a].freed == m.nodes[a].freed
    ensures FreedOk(m')
  {
  }

  lemma {:induction false} FreeOutside(m: Memory, k: nat, t: nat, a: nat)
    requires ChainOk(m) && RecsOk(m) && k < |m.ts| && m.ts[k].rec.Free? && a < |m.nodes|
    ensures var m' := Reclaiming(m, k, t);
      |m'.nodes| == |m.nodes| && (!On(m', a) ==> !On(m, a) && m'.nodes[a].freed == m.nodes[a].freed)
  {
    FreeNext(m, k, t);
    FreeLinks(m, k, t);
  }

  lemma {:induction false} FreeFreedOk(m: Memory, k: nat, t: nat)
    requires HeapOk(m) && k < |m.ts| && m.ts[k].rec.Free?
    ensures FreedOk(Reclaiming(m, k, t))
  {
    var m', p := Reclaiming(m, k, t), Id(m.nodes, m.ts[k].rec.cur);
    FreeNext(m, k, t);
    assert ToFree(m, m.ts[k].rec, p);
    forall q ensures BeingFreed(m', q) == (BeingFreed(m, q) && q != p) {
      if q >= 0 { FreeFreed(m, k, t, q); }
    }
    forall q | 0 <= q < |m.chain| ensures m'.nodes[m.chain[q]].freed <==> m.nodes[m.chain[q]].freed || q == p {
      FreeOne(m, k, t, q);
    }
    forall a: nat | a < |m.nodes| && !On(m', a) ensures !On(m, a) && m'.nodes[a].freed == m.nodes[a].freed {
      FreeOutside(m, k, t, a);
    }
    FreedFollows(m, m', p);
  }

  lemma {:induction false} FreeHeap(m: Memory, k: nat, t: nat)
    requires HeapOk(m) && k < |m.ts| && m.ts[k].rec.Free?
    ensures HeapOk(Reclaiming(m, k, t))
  {
    FreeShape(m, k, t);
    FreeRecs(m, k, t);
    FreeApart(m, k, t);
    FreeFreedOk(m, k, t);
  }

  lemma {:induction false} FreeOne(m: Memory, k: nat, t: nat, q: nat)
    requires ChainOk(m) && RecsOk(m) && k < |m.ts| && m.ts[k].rec.Free? && q < |m.chain|
    ensures Reclaiming(m, k, t).nodes[m.chain[q]].freed
      <==> m.nodes[m.chain[q]].freed || q == Id(m.nodes, m.ts[k].rec.cur)
  {
    FreeNext(m, k, t);
    assert Id(m.nodes, m.chain[q]) == q;
  }

  lemma {:induction false} ReclaimingHeap(m: Memory, k: nat, t: nat)
    requires HeapOk(m) && k < |m.ts| && TablesOn(m)
    ensures HeapOk(Reclaiming(m, k, t))
  {
    match m.ts[k].rec
    case No => ClaimHeap(m, k, t);
    case Claim(_) => ClaimHeap(m, k, t);
    case LoadFirst(_) => LoadHeap(m, k, t);
    case LoadMin(_, _) => LoadHeap(m, k, t);
    case Scanning(_, _, _, _, _) => ScanHeap(m, k);
    case Decide(_, _, _) => DecideHeap(m, k, t);
    case Publish(_, _, _) => PublishHeap(m, k, t);
    case Free(_, _) => FreeHeap(m, k, t);
  }
}
