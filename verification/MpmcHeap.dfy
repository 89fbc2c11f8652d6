/** How each kind of access to the segments keeps their invariant. */
module MpmcHeap {
  import opened Arithmetic
  import opened Options
  import opened MpmcSync
  import opened Mpmc
  import opened MpmcMemory

  /** Linked segments stay linked, under the same number. */
  ghost predicate Extends(m: Memory, m': Memory) {
    m'.bits == m.bits && forall a: nat :: On(m, a) ==> On(m', a) && Id(m'.nodes, a) == Id(m.nodes, a)
  }

  lemma {:induction false} PlaceKept(m: Memory, m': Memory, th: Thread, p: Pc, bound: nat, bound': nat)
    requires PlaceOk(m, th, p, bound) && Extends(m, m') && bound <= bound' && m'.base <= Id(m.nodes, th.ptr)
    requires th.find != Rest ==> bound == bound'
    ensures PlaceOk(m', th, p, bound')
  {
  }

  // ----- what reclaimers rely on

  /** Handles only move forward. */
  ghost predicate Forward(m: Memory, m': Memory) {
    && m'.enqs == m.enqs && m'.deqs == m.deqs
    && (forall role: Role, l :: 0 <= l < |Table(m, role)| ==>
          Id(m.nodes, Ptr(m, Table(m, role)[l])) <= Id(m'.nodes, Ptr(m', Table(m, role)[l])))
  }

  lemma {:induction false} RecKept(m: Memory, m': Memory, r: Reclaim)
    requires RecOk(m, r) && Extends(m, m') && m'.base == m.base < |m.chain| && Head(m') == Head(m)
    requires Holds(r) ==> Forward(m, m') && m'.initId == m.initId && m'.initNode == m.initNode
    ensures RecOk(m', r)
  {
    if r.Scanning? {
      AboveKept(m, m', r.role, r.i, Id(m.nodes, r.min));
      AboveKept(m, m', Dequeuer, |m.deqs|, Id(m.nodes, r.min));
    } else if r.Decide? || r.Publish? {
      AboveKept(m, m', Enqueuer, |m.enqs|, Id(m.nodes, r.min));
      AboveKept(m, m', Dequeuer, |m.deqs|, Id(m.nodes, r.min));
    }
  }

  lemma {:induction false} AboveKept(m: Memory, m': Memory, role: Role, i: nat, q: nat)
    requires Forward(m, m')
    ensures Above(m, role, i, q) ==> Above(m', role, i, q)
  {
    assert Table(m', role) == Table(m, role);
  }

  /** A step that leaves `init_node`, `init_id` and every reclaimer where it is. */
  lemma {:induction false} RecsKept(m: Memory, m': Memory)
    requires RecsOk(m) && Extends(m, m') && Forward(m, m')
    requires m'.base == m.base && Head(m') == Head(m) && m'.initId == m.initId && m'.initNode == m.initNode
    requires |m.chain| <= |m'.chain| && |m'.ts| == |m.ts|
    requires forall k :: 0 <= k < |m.ts| ==> m'.ts[k].rec == m.ts[k].rec
    ensures RecsOk(m')
  {
    forall k | 0 <= k < |m'.ts| ensures RecOk(m', m'.ts[k].rec) {
      RecKept(m, m', m.ts[k].rec);
    }
    if SomeHolder(m) {
      var k :| 0 <= k < |m.ts| && Holds(m.ts[k].rec);
      assert Holds(m'.ts[k].rec);
    }
  }

  lemma {:induction false} RangesKept(m: Memory, m': Memory)
    requires RecsOk(m) && RangesApart(m) && Extends(m, m') && |m'.ts| == |m.ts|
    requires forall k :: 0 <= k < |m.ts| ==> m'.ts[k].rec == m.ts[k].rec
    ensures RangesApart(m') && forall q :: BeingFreed(m', q) == BeingFreed(m, q)
  {
    forall k, q | 0 <= k < |m.ts| ensures ToFree(m', m'.ts[k].rec, q) == ToFree(m, m.ts[k].rec, q) {
      assert RecOk(m, m.ts[k].rec);
    }
    forall q ensures BeingFreed(m', q) == BeingFreed(m, q) {
      if BeingFreed(m, q) {
        var k :| 0 <= k < |m.ts| && ToFree(m, m.ts[k].rec, q);
        assert ToFree(m', m'.ts[k].rec, q);
      }
      if BeingFreed(m', q) {
        var k :| 0 <= k < |m.ts| && ToFree(m', m'.ts[k].rec, q);
        assert ToFree(m, m.ts[k].rec, q);
      }
    }
  }

  // ----- a thread moves

  lemma {:induction false} MoveLinks(m: Memory, k: nat, th: Thread)
    requires k < |m.ts| && Id(m.nodes, m.ts[k].ptr) <= Id(m.nodes, th.ptr)
    ensures var m' := With(m, k, th); Extends(m, m') && Forward(m, m') && forall a: nat :: On(m', a) == On(m, a)
  {
    var m' := With(m, k, th);
    assert forall a: nat :: On(m', a) == On(m, a);
    assert forall j: nat :: Id(m.nodes, Ptr(m, j)) <= Id(m.nodes, Ptr(m', j));
  }

  /** Thread `k` moves on, with the same spare segment and the same part in reclamation. */
  lemma {:induction false} MoveHeap(m: Memory, k: nat, th: Thread)
    requires HeapOk(m) && k < |m.ts| && th.spare == m.ts[k].spare && th.rec == m.ts[k].rec
    requires Id(m.nodes, m.ts[k].ptr) <= Id(m.nodes, th.ptr)
    ensures HeapOk(With(m, k, th))
  {
    var m' := With(m, k, th);
    MoveLinks(m, k, th);
    RecsKept(m, m');
    RangesKept(m, m');
    MoveSpares(m, k, th);
  }

  lemma {:induction false} MoveSpares(m: Memory, k: nat, th: Thread)
    requires SparesOk(m) && k < |m.ts| && th.spare == m.ts[k].spare
    ensures SparesOk(With(m, k, th))
  {
    var m' := With(m, k, th);
    forall l | 0 <= l < |m'.ts| && m'.ts[l].spare.Some? ensures SpareOk(m', m'.ts[l].spare.value) {
      assert SpareOk(m, m.ts[l].spare.value);
    }
  }

  // ----- a cell is written

  ghost predicate SameNode(u: Node, v: Node) {
    v.id == u.id && v.next == u.next && v.freed == u.freed && |v.cells| == |u.cells|
  }

  ghost predicate SameLinks(m: Memory, m': Memory) {
    && m' == m.(nodes := m'.nodes) && |m'.nodes| == |m.nodes|
    && forall a :: 0 <= a < |m.nodes| ==> SameNode(m.nodes[a], m'.nodes[a])
  }

  lemma {:induction false} SameLinksShape(m: Memory, m': Memory)
    requires SameLinks(m, m') && ChainOk(m)
    ensures Extends(m, m') && Forward(m, m') && ChainOk(m')
    ensures forall a: nat :: On(m', a) == On(m, a)
  {
    assert forall a: nat :: Id(m'.nodes, a) == Id(m.nodes, a) && Next(m'.nodes, a) == Next(m.nodes, a);
    assert forall a: nat :: On(m', a) == On(m, a);
  }

  lemma {:induction false} SameLinksHeap(m: Memory, m': Memory)
    requires HeapOk(m) && SameLinks(m, m') && SparesOk(m')
    ensures HeapOk(m') && Extends(m, m')
  {
    SameLinksShape(m, m');
    RecsKept(m, m');
    RangesKept(m, m');
    assert forall a :: 0 <= a < |m.nodes| ==> m'.nodes[a].freed == m.nodes[a].freed;
  }

  lemma {:induction false} StoreHeap(m: Memory, k: nat, t: nat, c: Cell)
    requires HeapOk(m) && On(m, Ptr(m, k))
    ensures HeapOk(Store(m, k, t, c)) && Extends(m, Store(m, k, t, c))
  {
    var m' := Store(m, k, t, c);
    assert SameLinks(m, m');
    forall l | 0 <= l < |m.ts| && m.ts[l].spare.Some? ensures SpareOk(m', m.ts[l].spare.value) {
      assert SpareOk(m, m.ts[l].spare.value);
    }
    SameLinksHeap(m, m');
  }

  // ----- a segment is added

  /** No registered handle points to a segment that may be freed. */
  ghost predicate TablesOn(m: Memory) {
    forall role: Role, l :: 0 <= l < |Table(m, role)| ==>
      On(m, Ptr(m, Table(m, role)[l])) && m.base <= Id(m.nodes, Ptr(m, Table(m, role)[l]))
  }

  /** A step that adds unlinked segments, numbers them or links them, and leaves every handle where it is. */
  ghost predicate Grows(m: Memory, m': Memory) {
    && Extends(m, m')
    && m'.enqs == m.enqs && m'.deqs == m.deqs && m'.initNode == m.initNode && m'.initId == m.initId && m'.base == m.base
    && m.chain <= m'.chain && |m.nodes| <= |m'.nodes| && |m'.ts| == |m.ts|
    && (forall k :: 0 <= k < |m.ts| ==> m'.ts[k].rec == m.ts[k].rec && m'.ts[k].ptr == m.ts[k].ptr)
    && (forall a :: 0 <= a < |m'.nodes| ==> m'.nodes[a].freed == (a < |m.nodes| && m.nodes[a].freed))
    && (forall q :: |m.chain| <= q < |m'.chain| ==> !On(m, m'.chain[q]))
  }

  lemma {:induction false} GrowsRecs(m: Memory, m': Memory)
    requires RecsOk(m) && RangesApart(m) && Grows(m, m') && TablesOn(m)
    ensures RecsOk(m') && RangesApart(m') && forall q :: BeingFreed(m', q) == BeingFreed(m, q)
  {
    assert forall j: nat :: Ptr(m', j) == Ptr(m, j);
    RecsKept(m, m');
    RangesKept(m, m');
  }

  lemma {:induction false} GrowsFreed(m: Memory, m': Memory, q: nat)
    requires FreedOk(m) && Grows(m, m') && ChainOk(m) && m.base < |m.chain| && q < |m'.chain| && m'.chain[q] < |m'.nodes|
    requires BeingFreed(m', q) == BeingFreed(m, q)
    ensures m'.nodes[m'.chain[q]].freed <==> q < m'.base && !BeingFreed(m', q)
  {
    if q < |m.chain| {
      assert m'.chain[q] == m.chain[q];
      assert m.nodes[m.chain[q]].freed <==> q < m.base && !BeingFreed(m, q);
    } else {
      assert !On(m, m'.chain[q]);
    }
  }

  lemma {:induction false} GrowsHeap(m: Memory, m': Memory)
    requires HeapOk(m) && Grows(m, m') && TablesOn(m) && ChainOk(m') && SparesOk(m')
    ensures HeapOk(m')
  {
    GrowsRecs(m, m');
    forall q | 0 <= q < |m'.chain| && m'.chain[q] < |m'.nodes|
      ensures m'.nodes[m'.chain[q]].freed <==> q < m'.base && !BeingFreed(m', q) {
      GrowsFreed(m, m', q);
    }
  }

  /** Thread `k` with a new spare segment. */
  function Allocated(m: Memory, k: nat): Memory
    requires k < |m.ts|
  {
    With(m, k, m.ts[k].(spare := Some(|m.nodes|))).(nodes := m.nodes + [Blank(N(m))])
  }

  lemma {:induction false} AllocHeap(m: Memory, k: nat)
    requires HeapOk(m) && k < |m.ts| && m.ts[k].spare == None && TablesOn(m)
    ensures HeapOk(Allocated(m, k)) && Grows(m, Allocated(m, k))
  {
    AllocLinks(m, k);
    AllocSpares(m, k);
    GrowsHeap(m, Allocated(m, k));
  }

  lemma {:induction false} AllocLinks(m: Memory, k: nat)
    requires ChainOk(m) && k < |m.ts|
    ensures var m' := Allocated(m, k);
      && ChainOk(m') && !On(m', |m.nodes|)
      && forall a: nat :: a < |m.nodes| ==> On(m', a) == On(m, a) && Id(m'.nodes, a) == Id(m.nodes, a)
  {
    var m' := Allocated(m, k);
    assert forall a :: 0 <= a < |m.nodes| ==> m'.nodes[a] == m.nodes[a];
  }

  lemma {:induction false} AllocSpares(m: Memory, k: nat)
    requires SparesOk(m) && k < |m.ts| && m.ts[k].spare == None && !On(Allocated(m, k), |m.nodes|)
    requires forall a: nat :: a < |m.nodes| ==> On(Allocated(m, k), a) == On(m, a)
    ensures SparesOk(Allocated(m, k))
  {
    var m' := Allocated(m, k);
    forall l | 0 <= l < |m'.ts| && m'.ts[l].spare.Some? ensures SpareOk(m', m'.ts[l].spare.value) {
      assert l != k ==> SpareOk(m, m.ts[l].spare.value);
    }
  }

  /** The spare segment `tmp` gets a number. */
  function Numbered(m: Memory, tmp: nat, id: nat): Memory
    requires tmp < |m.nodes|
  {
    m.(nodes := m.nodes[tmp := m.nodes[tmp].(id := id)])
  }

  lemma {:induction false} NumberLinks(m: Memory, tmp: nat, id: nat)
    requires ChainOk(m) && SpareOk(m, tmp)
    ensures var m' := Numbered(m, tmp, id); ChainOk(m') && Grows(m, m') && forall a: nat :: On(m', a) == On(m, a)
  {
    var m' := Numbered(m, tmp, id);
    assert forall q :: 0 <= q < |m.chain| ==> m.chain[q] != tmp;
    assert forall a: nat :: On(m', a) == On(m, a) && (a != tmp ==> Id(m'.nodes, a) == Id(m.nodes, a));
  }

  lemma {:induction false} NumberHeap(m: Memory, k: nat, tmp: nat, id: nat)
    requires HeapOk(m) && k < |m.ts| && m.ts[k].spare == Some(tmp) && tmp < |m.nodes| && TablesOn(m)
    ensures HeapOk(Numbered(m, tmp, id)) && Grows(m, Numbered(m, tmp, id))
  {
    var m' := Numbered(m, tmp, id);
    NumberLinks(m, tmp, id);
    forall l | 0 <= l < |m'.ts| && m'.ts[l].spare.Some? ensures SpareOk(m', m'.ts[l].spare.value) {
      assert SpareOk(m, m.ts[l].spare.value);
    }
    GrowsHeap(m, m');
  }

  /** The spare segment `tmp` is hung behind the last segment. */
  function Hung(m: Memory, k: nat, curr: nat, tmp: nat): Memory
    requires k < |m.ts| && curr < |m.nodes|
  {
    With(m, k, m.ts[k].(spare := None))
      .(nodes := m.nodes[curr := m.nodes[curr].(next := Some(tmp))], chain := m.chain + [tmp])
  }

  lemma {:induction false} HungLinks(m: Memory, k: nat, curr: nat, tmp: nat)
    requires ChainOk(m) && SpareOk(m, tmp) && k < |m.ts| && On(m, curr) && m.nodes[curr].next == None
    requires m.nodes[tmp].id == m.nodes[curr].id + 1
    ensures Id(m.nodes, curr) == |m.chain| - 1 && tmp != curr && ChainOk(Hung(m, k, curr, tmp))
    ensures Extends(m, Hung(m, k, curr, tmp))
    ensures forall a: nat :: On(Hung(m, k, curr, tmp), a) <==> On(m, a) || a == tmp
  {
    var m' := Hung(m, k, curr, tmp);
    assert Next(m.nodes, m.chain[Id(m.nodes, curr)]) == After(m.chain, Id(m.nodes, curr));
    assert forall a: nat :: Id(m'.nodes, a) == Id(m.nodes, a);
    forall q | 0 <= q < |m'.chain| ensures Next(m'.nodes, m'.chain[q]) == After(m'.chain, q) {
      if q < |m.chain| {
        assert Next(m.nodes, m.chain[q]) == After(m.chain, q);
      }
    }
  }

  lemma {:induction false} HungSpares(m: Memory, k: nat, curr: nat, tmp: nat)
    requires SparesOk(m) && k < |m.ts| && m.ts[k].spare == Some(tmp) && On(m, curr)
    requires forall a: nat :: On(Hung(m, k, curr, tmp), a) <==> On(m, a) || a == tmp
    ensures SparesOk(Hung(m, k, curr, tmp))
  {
    var m' := Hung(m, k, curr, tmp);
    forall l | 0 <= l < |m'.ts| && m'.ts[l].spare.Some? ensures SpareOk(m', m'.ts[l].spare.value) {
      assert l != k && SpareOk(m, m.ts[l].spare.value);
    }
  }

  lemma {:induction false} HangHeap(m: Memory, k: nat, curr: nat, tmp: nat)
    requires HeapOk(m) && k < |m.ts| && m.ts[k].spare == Some(tmp) && On(m, curr) && m.nodes[curr].next == None
    requires tmp < |m.nodes| && m.nodes[tmp].id == m.nodes[curr].id + 1 && TablesOn(m)
    ensures HeapOk(Hung(m, k, curr, tmp)) && Grows(m, Hung(m, k, curr, tmp))
  {
    assert SpareOk(m, tmp);
    HungLinks(m, k, curr, tmp);
    HungSpares(m, k, curr, tmp);
    GrowsHeap(m, Hung(m, k, curr, tmp));
  }
}
