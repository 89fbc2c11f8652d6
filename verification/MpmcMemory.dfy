/** What every state of the queue satisfies about its segments, the threads and reclamation. */
module MpmcMemory {
  import opened Arithmetic
  import opened Options
  import opened MpmcSync
  import opened Mpmc

  // ----- segments

  ghost predicate On(m: Memory, a: nat) {
    a < |m.nodes| && m.nodes[a].id < |m.chain| && m.chain[m.nodes[a].id] == a
  }

  function After(chain: seq<nat>, q: nat): Option<nat> {
    if q + 1 < |chain| then Some(chain[q + 1]) else None
  }

  /** The linked segments are numbered from 0 along `next`. */
  ghost predicate ChainOk(m: Memory) {
    && |m.chain| > 0
    && (forall q :: 0 <= q < |m.chain| ==> m.chain[q] < |m.nodes| && m.nodes[m.chain[q]].id == q)
    && (forall q :: 0 <= q < |m.chain| ==> Next(m.nodes, m.chain[q]) == After(m.chain, q))
    && (forall a :: 0 <= a < |m.nodes| ==> |m.nodes[a].cells| == N(m))
  }

  ghost predicate SpareOk(m: Memory, a: nat) {
    && a < |m.nodes| && !On(m, a) && m.nodes[a].next == None
    && (forall i :: 0 <= i < |m.nodes[a].cells| ==> m.nodes[a].cells[i] == Null)
  }

  ghost predicate SparesOk(m: Memory) {
    && (forall k :: 0 <= k < |m.ts| && m.ts[k].spare.Some? ==> SpareOk(m, m.ts[k].spare.value))
    && (forall j, k :: 0 <= j < k < |m.ts| && m.ts[j].spare.Some? && m.ts[k].spare.Some?
           ==> m.ts[j].spare.value != m.ts[k].spare.value)
  }

  // ----- threads

  predicate Seeks(p: Pc) {
    p.Put? || p.Get?
  }

  /** No handle may be past this segment. */
  function Bound(y: Sync, m: Memory, k: nat): nat
    requires k < |m.ts| == |y.pcs|
  {
    var p := y.pcs[k];
    Segment(m, if Seeks(p) then p.t else if m.ts[k].role == Enqueuer then y.put else y.pop)
  }

  ghost predicate RoleOk(th: Thread, p: Pc) {
    && (p.Put? || p.Clear? || p.Wake? ==> th.role == Enqueuer)
    && (Takes(p) ==> th.role == Dequeuer)
    && (th.reg != Ready ==> p.Idle?)
    && (th.reg == Unregistered ==> th.spare == None)
    && (th.find != Rest ==> Seeks(p))
    && (th.rec != No ==> p.Have?)
  }

  ghost predicate PlaceOk(m: Memory, th: Thread, p: Pc, bound: nat) {
    && On(m, th.ptr) && m.base <= Id(m.nodes, th.ptr) <= bound
    && match th.find
       case Rest => p.Put? || Takes(p) ==> Id(m.nodes, th.ptr) == Segment(m, p.t)
       case Load => true
       case Walk(curr, j) => On(m, curr) && Id(m.nodes, th.ptr) <= j == Id(m.nodes, curr) <= bound
       case Link(curr, j) => On(m, curr) && Id(m.nodes, th.ptr) <= j == Id(m.nodes, curr) < bound
  }

  ghost predicate ThreadOk(y: Sync, m: Memory, k: nat)
    requires k < |m.ts| == |y.pcs|
  {
    && RoleOk(m.ts[k], y.pcs[k])
    && (m.ts[k].reg != Unregistered ==> PlaceOk(m, m.ts[k], y.pcs[k], Bound(y, m, k)))
  }

  ghost predicate ThreadsOk(y: Sync, m: Memory) {
    && |m.ts| == |y.pcs| == |y.flag|
    && (forall k :: 0 <= k < |m.ts| ==> ThreadOk(y, m, k))
  }

  // ----- registration

  ghost predicate TableOk(ts: seq<Thread>, table: seq<nat>, role: Role) {
    && (forall i :: 0 <= i < |table| ==> table[i] < |ts| && ts[table[i]].role == role && Joined(ts[table[i]]))
    && (forall k :: 0 <= k < |ts| && ts[k].role == role && Joined(ts[k]) ==> k in table)
    && (forall k :: 0 <= k < |ts| && ts[k].role == role && ts[k].reg == Ready ==> AllJoined(ts, role))
    && (forall k :: 0 <= k < |ts| && ts[k].role == role && ts[k].reg.Scan? ==> ts[k].reg.i <= |table|)
  }

  ghost predicate RegistrationOk(y: Sync, m: Memory) {
    && TableOk(m.ts, m.enqs, Enqueuer)
    && TableOk(m.ts, m.deqs, Dequeuer)
    && (y.put > 0 ==> AllJoined(m.ts, Enqueuer))
    && (y.pop > 0 ==> AllJoined(m.ts, Dequeuer))
    && (m.base > 0 || m.initId < 0 ==> y.put > 0 && y.pop > 0)
  }

  // ----- reclamation

  ghost predicate Holds(r: Reclaim) {
    r.LoadFirst? || r.LoadMin? || r.Scanning? || r.Decide? || r.Publish?
  }

  function Head(m: Memory): nat {
    if m.base < |m.chain| then m.chain[m.base] else 0
  }

  /** The first `i` handles of a table are at segment `q` or later. */
  ghost predicate Above(m: Memory, role: Role, i: nat, q: nat) {
    forall l :: 0 <= l < i && l < |Table(m, role)| ==> q <= Id(m.nodes, Ptr(m, Table(m, role)[l]))
  }

  ghost predicate AllAbove(m: Memory, q: nat) {
    Above(m, Enqueuer, |m.enqs|, q) && Above(m, Dequeuer, |m.deqs|, q)
  }

  ghost predicate RecOk(m: Memory, r: Reclaim) {
    match r
    case No => true
    case Claim(_) => true
    case LoadFirst(init) => init == m.base && m.initId < 0 && m.initNode == Head(m)
    case LoadMin(init, first) => init == m.base && m.initId < 0 && m.initNode == first == Head(m)
    case Scanning(init, first, min, role, i) =>
      && init == m.base && m.initId < 0 && m.initNode == first == Head(m)
      && On(m, min) && m.base <= Id(m.nodes, min)
      && (|| Id(m.nodes, min) <= m.base
          || (Above(m, role, i, Id(m.nodes, min)) && (role == Enqueuer ==> Above(m, Dequeuer, |m.deqs|, Id(m.nodes, min)))))
    case Decide(init, first, min) =>
      && init == m.base && m.initId < 0 && m.initNode == first == Head(m)
      && On(m, min) && m.base <= Id(m.nodes, min)
      && (Id(m.nodes, min) <= m.base || AllAbove(m, Id(m.nodes, min)))
    case Publish(first, min, newId) =>
      && m.initId < 0 && first == Head(m) && m.initNode == min
      && On(m, min) && m.base < newId == Id(m.nodes, min) && AllAbove(m, newId)
    case Free(cur, min) =>
      On(m, cur) && On(m, min) && Id(m.nodes, cur) < Id(m.nodes, min) <= m.base
  }

  ghost predicate SomeHolder(m: Memory) {
    exists k :: 0 <= k < |m.ts| && Holds(m.ts[k].rec)
  }

  /** Segment `q` is in the range thread record `r` has still to free. */
  ghost predicate ToFree(m: Memory, r: Reclaim, q: nat) {
    r.Free? && Id(m.nodes, r.cur) <= q < Id(m.nodes, r.min)
  }

  ghost predicate BeingFreed(m: Memory, q: nat) {
    exists k :: 0 <= k < |m.ts| && ToFree(m, m.ts[k].rec, q)
  }

  ghost predicate RecsOk(m: Memory) {
    && m.base < |m.chain|
    && (forall k :: 0 <= k < |m.ts| ==> RecOk(m, m.ts[k].rec))
    && (forall j, k :: 0 <= j < |m.ts| && 0 <= k < |m.ts| && j != k && Holds(m.ts[j].rec) ==> !Holds(m.ts[k].rec))
    && (m.initId >= 0 ==> m.initId == m.base && m.initNode == Head(m))
    && (m.initId < 0 ==> SomeHolder(m))
  }

  /** No segment is to be freed by two threads. */
  ghost predicate RangesApart(m: Memory) {
    forall j, k, q :: 0 <= j < |m.ts| && 0 <= k < |m.ts| && ToFree(m, m.ts[j].rec, q) && ToFree(m, m.ts[k].rec, q) ==> j == k
  }

  /** Freed are exactly the segments before `base` that no reclaimer has still to free. */
  ghost predicate FreedOk(m: Memory) {
    && (forall q :: 0 <= q < |m.chain| && m.chain[q] < |m.nodes| ==>
           (m.nodes[m.chain[q]].freed <==> q < m.base && !BeingFreed(m, q)))
    && (forall a: nat :: a < |m.nodes| && !On(m, a) ==> !m.nodes[a].freed)
  }

  // ----- cells

  /** The content of the cell of ticket `t`, wherever its segment is. */
  ghost function CellOf(m: Memory, t: nat): Cell {
    var q := Segment(m, t);
    if q < |m.chain| then CellIn(m.nodes, m.chain[q], Slot(m, t)) else Null
  }

  ghost function Cells(m: Memory): nat -> Cell {
    (t: nat) => CellOf(m, t)
  }

  /** What concerns memory alone. */
  ghost predicate HeapOk(m: Memory) {
    ChainOk(m) && SparesOk(m) && RecsOk(m) && RangesApart(m) && FreedOk(m)
  }

  ghost predicate MemoryOk(s: State) {
    HeapOk(s.m) && ThreadsOk(s.y, s.m) && RegistrationOk(s.y, s.m)
  }

  ghost predicate Inv(s: State) {
    MemoryOk(s) && Paired(s.y, Cells(s.m))
  }

  // ----- no step touches freed memory

  /** Every segment a thread is about to access is there, and has not been freed. */
  lemma {:induction false} TouchedLive(s: State, k: nat, a: nat)
    requires MemoryOk(s) && a in Touched(s, k)
    ensures a < |s.m.nodes| && !s.m.nodes[a].freed
  {
    var m, th := s.m, s.m.ts[k];
    assert ThreadOk(s.y, m, k) && RecOk(m, th.rec);
    if th.find.Link? && th.spare == Some(a) {
      assert SpareOk(m, a);
    } else if th.rec.Free? && a == th.rec.cur {
      assert ToFree(m, th.rec, Id(m.nodes, a));
      assert BeingFreed(m, Id(m.nodes, a));
    } else {
      TouchedOnChain(s, k, a);
    }
  }

  lemma {:induction false} TouchedOnChain(s: State, k: nat, a: nat)
    requires MemoryOk(s) && a in Touched(s, k)
    requires !(s.m.ts[k].find.Link? && s.m.ts[k].spare == Some(a)) && !(s.m.ts[k].rec.Free? && a == s.m.ts[k].rec.cur)
    ensures On(s.m, a) && s.m.base <= Id(s.m.nodes, a)
  {
    var m, th := s.m, s.m.ts[k];
    assert ThreadOk(s.y, m, k) && RecOk(m, th.rec);
    if th.rec.Scanning? && a != th.rec.min && th.find == Rest && s.y.pcs[k].Have? {
      var j := Table(m, th.rec.role)[th.rec.i];
      assert Joined(m.ts[j]) && ThreadOk(s.y, m, j);
    }
  }
}
