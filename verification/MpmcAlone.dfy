/** What a thread of the queue achieves that is left alone: its call returns, and a dequeuer whose turn it is to
    reclaim frees all it may. */
module MpmcAlone {
  import opened Arithmetic
  import opened Options
  import opened MpmcSync
  import opened Mpmc
  import opened MpmcMemory
  import opened MpmcHeap
  import opened MpmcReclaim
  import opened MpmcSteps
  import opened MpmcRuns
  import opened MpmcCalls
  import opened Traces

  function Gap(lo: nat, hi: nat): nat {
    if lo < hi then hi - lo else 0
  }

  // ----- registration

  lemma {:induction false} JoinsOn(m: Memory, k: nat)
    requires k < |m.ts| && m.ts[k].reg != Ready
    requires m.ts[k].reg == AtBarrier ==> AllJoined(m.ts, m.ts[k].role)
    ensures |Register(m, k).ts| == |m.ts| && Register(m, k).ts[k].reg != m.ts[k].reg
  {
  }

  /** Nobody waits for ever to be registered: some thread of the same role can go on, at the latest through the barrier
      when all have got there. */
  lemma {:induction false} RegistersOn(bits: nat, threshold: int, roles: seq<Role>, steps: seq<Step>, k: nat) returns (j: nat)
    requires var s := Run(Init(bits, threshold, roles), steps); k < |s.m.ts| && s.m.ts[k].reg != Ready
    ensures var s := Run(Init(bits, threshold, roles), steps);
      j < |s.m.ts| && s.m.ts[j].role == s.m.ts[k].role && |Take(s, Enroll(j)).m.ts| == |s.m.ts|
      && Take(s, Enroll(j)).m.ts[j].reg != s.m.ts[j].reg
  {
    var s := Run(Init(bits, threshold, roles), steps);
    assert Reached(s);
    SameSizes(s);
    j := k;
    if s.m.ts[k].reg == AtBarrier && !AllJoined(s.m.ts, s.m.ts[k].role) {
      j :| 0 <= j < |s.m.ts| && s.m.ts[j].role == s.m.ts[k].role && !Joined(s.m.ts[j]);
    }
    JoinsOn(s.m, j);
  }

  lemma {:induction false} SameSizes(s: State)
    requires Reached(s)
    ensures |s.m.ts| == |s.y.pcs| == |s.y.flag|
  {
    ReachedInv(s);
  }

  // ----- the way to the cell

  /** The steps left to the segment of ticket `t`. */
  function FindLeft(m: Memory, k: nat, t: nat): nat
    requires k < |m.ts|
  {
    match m.ts[k].find
    case Rest => 0
    case Load => 2 * Gap(Id(m.nodes, m.ts[k].ptr), Segment(m, t)) + 3
    case Walk(_, j) => 2 * Gap(j, Segment(m, t)) + 2
    case Link(_, j) => 2 * Gap(j, Segment(m, t)) + 1
  }

  lemma {:induction false} LinkGoesOn(m: Memory, k: nat, curr: nat, j: nat)
    requires ChainOk(m) && SparesOk(m) && k < |m.ts| && On(m, curr) && m.ts[k].find == Link(curr, j)
    ensures var m' := LinkSegment(m, k, curr, j);
      |m'.ts| == |m.ts| && m'.bits == m.bits && m'.ts[k].find.Walk? && m'.ts[k].find.j == j + 1
  {
    if m.ts[k].spare.Some? {
      assert SpareOk(m, m.ts[k].spare.value);
    }
  }

  lemma {:induction false} FindGoesOn(m: Memory, k: nat, t: nat)
    requires ChainOk(m) && SparesOk(m) && k < |m.ts| && m.ts[k].find != Rest
    requires m.ts[k].find.Link? ==> On(m, m.ts[k].find.curr) && m.ts[k].find.j < Segment(m, t)
    ensures var m' := FindCell(m, k, t); |m'.ts| == |m.ts| && FindLeft(m', k, t) < FindLeft(m, k, t)
  {
    if m.ts[k].find.Link? {
      LinkGoesOn(m, k, m.ts[k].find.curr, m.ts[k].find.j);
    }
  }

  /** What the invariant says of a thread in search of its cell. */
  lemma {:induction false} Seeking(s: State, k: nat)
    requires Reached(s) && Seeks(PcOf(s, k))
    ensures k < |s.m.ts| == |s.y.pcs| == |s.y.flag| && ChainOk(s.m) && SparesOk(s.m)
    ensures var find, t := s.m.ts[k].find, s.y.pcs[k].t;
      find.Link? ==> On(s.m, find.curr) && find.j < Segment(s.m, t)
  {
    ReachedInv(s);
    assert ThreadOk(s.y, s.m, k);
  }

  lemma {:induction false} FindStep(s: State, k: nat)
    requires Reached(s) && Seeks(PcOf(s, k)) && k < |s.m.ts| && s.m.ts[k].find != Rest
    ensures var s', t := Take(s, Go(k, false)), PcOf(s, k).t;
      && PcOf(s', k) == PcOf(s, k) && s'.y == s.y && k < |s'.m.ts| && FindLeft(s'.m, k, t) < FindLeft(s.m, k, t)
  {
    Seeking(s, k);
    FindGoesOn(s.m, k, s.y.pcs[k].t);
  }

  // ----- an enqueue

  function PutLeft(s: State, k: nat): nat {
    match PcOf(s, k)
    case Put(_, t) => 3 + if k < |s.m.ts| then FindLeft(s.m, k, t) else 0
    case Clear(_, _) => 2
    case Wake(_, _) => 1
    case _ => 0
  }

  lemma {:induction false} PutGoesOn(s: State, k: nat)
    requires Reached(s) && Puts(PcOf(s, k))
    ensures var s' := Take(s, Go(k, false)); (Puts(PcOf(s', k)) || PcOf(s', k) == Idle) && PutLeft(s', k) < PutLeft(s, k)
  {
    ReachedStep(s, Go(k, false));
    NotWild(Take(s, Go(k, false)), k);
    if PcOf(s, k).Put? {
      Seeking(s, k);
      if s.m.ts[k].find != Rest {
        FindStep(s, k);
      }
    } else {
      PutEnough(s, k);
    }
  }

  lemma {:induction false} PutEnough(s: State, k: nat)
    requires Reached(s) && Puts(PcOf(s, k))
    ensures k < |s.m.ts| == |s.y.pcs| == |s.y.flag|
  {
    ReachedInv(s);
  }

  lemma {:induction false} PutAlone(s: State, k: nat) returns (more: seq<Step>, tr: seq<State>)
    requires Reached(s) && (Puts(PcOf(s, k)) || PcOf(s, k) == Idle)
    ensures Within(s, k, more, tr, |more|) && PcOf(tr[|more|], k) == Idle
    ensures |more| <= PutLeft(s, k) && forall c :: 0 <= c < |more| ==> more[c] == Go(k, false)
    decreases PutLeft(s, k)
  {
    if PcOf(s, k) == Idle {
      more, tr := [], [s];
    } else {
      var step := Go(k, false);
      PutGoesOn(s, k);
      ReachedStep(s, step);
      var rest, states := PutAlone(Take(s, step), k);
      TracePrepend(Take, s, step, rest, states);
      more, tr := [step] + rest, [s] + states;
    }
  }

  /** An enqueue returns that is left alone, however far away the segment of its ticket is. */
  lemma {:induction false} EnqueueAlone(bits: nat, threshold: int, roles: seq<Role>, steps: seq<Step>, k: nat, v: int)
    returns (more: seq<Step>, tr: seq<State>)
    requires Waits(Run(Init(bits, threshold, roles), steps), k, Enqueuer)
    ensures Returns(Run(Init(bits, threshold, roles), steps), StartEnqueue(k, v), more, tr)
    ensures forall c :: 0 <= c < |more| ==> more[c] == Go(k, false)
  {
    var s := Run(Init(bits, threshold, roles), steps);
    assert Reached(s);
    ReachedStep(s, StartEnqueue(k, v));
    PutStarts(s, k, v);
    more, tr := PutAlone(Take(s, StartEnqueue(k, v)), k);
  }

  // ----- reclamation

  /** The steps a dequeuer of ticket `t` that has its value has left. */
  function RecLeft(m: Memory, k: nat, t: nat): nat
    requires k < |m.ts|
  {
    var d, e, c := |m.deqs|, |m.enqs|, |m.chain|;
    match m.ts[k].rec
    case No => if Due(m, k, t) then 12 + d + e + c else 1
    case Claim(_) => 11 + d + e + c
    case LoadFirst(_) => 10 + d + e + c
    case LoadMin(_, _) => 9 + d + e + c
    case Scanning(_, _, _, role, i) => if role == Dequeuer then 7 + c + e + Gap(i, d) else 6 + c + Gap(i, e)
    case Decide(_, _, _) => 5 + c
    case Publish(_, _, _) => 4 + c
    case Free(cur, min) => 2 + Gap(Id(m.nodes, cur), Id(m.nodes, min))
  }

  /** Some handle is at segment `q`. */
  ghost predicate SomeAt(m: Memory, q: nat) {
    exists role: Role, l :: 0 <= l < |Table(m, role)| && Id(m.nodes, Ptr(m, Table(m, role)[l])) == q
  }

  /** What a thread that reclaims alone has found out. */
  ghost predicate Found(m: Memory, r: Reclaim) {
    match r
    case Scanning(_, _, min, _, _) => SomeAt(m, Id(m.nodes, min))
    case Decide(_, _, min) => SomeAt(m, Id(m.nodes, min))
    case Publish(_, _, newId) => SomeAt(m, newId)
    case Free(_, _) => SomeAt(m, m.base) && AllAbove(m, m.base) && m.initId == m.base
    case LoadFirst(_) => true
    case LoadMin(_, _) => true
    case _ => m.initId == m.base && (r.Claim? ==> r.init == m.initId)
  }

  /** The start of the list is as far on as the hindmost handle. */
  ghost predicate Swept(m: Memory) {
    SomeAt(m, m.base) && AllAbove(m, m.base) && m.initId == m.base
  }

  lemma {:induction false} AllBehind(m: Memory)
    requires TablesOn(m)
    ensures AllAbove(m, m.base)
  {
    forall role: Role, l | 0 <= l < |Table(m, role)| ensures m.base <= Id(m.nodes, Ptr(m, Table(m, role)[l])) {
    }
    assert Table(m, Enqueuer) == m.enqs && Table(m, Dequeuer) == m.deqs;
  }

  /** Reclaiming moves no handle. */
  lemma {:induction false} SameAt(m: Memory, k: nat, t: nat, q: nat)
    requires k < |m.ts| && SomeAt(m, q)
    ensures SomeAt(Reclaiming(m, k, t), q)
  {
    var m' := Reclaiming(m, k, t);
    ReclaimShape(m, k, t);
    var role: Role, l :| 0 <= l < |Table(m, role)| && Id(m.nodes, Ptr(m, Table(m, role)[l])) == q;
    var a := Ptr(m, Table(m, role)[l]);
    ReclaimIds(m, k, t, a);
    assert Table(m', role) == Table(m, role) && Ptr(m', Table(m', role)[l]) == a;
  }

  lemma {:induction false} SameAbove(m: Memory, k: nat, t: nat, q: nat)
    requires k < |m.ts| && AllAbove(m, q)
    ensures AllAbove(Reclaiming(m, k, t), q)
  {
    var m' := Reclaiming(m, k, t);
    ReclaimShape(m, k, t);
    forall role: Role, l | 0 <= l < |Table(m', role)| && q <= Id(m.nodes, Ptr(m, Table(m, role)[l]))
      ensures q <= Id(m'.nodes, Ptr(m', Table(m', role)[l])) {
      ReclaimIds(m, k, t, Ptr(m, Table(m, role)[l]));
      assert Table(m', role) == Table(m, role) && Ptr(m', Table(m, role)[l]) == Ptr(m, Table(m, role)[l]);
    }
    assert Table(m', Enqueuer) == m.enqs && Table(m', Dequeuer) == m.deqs;
    assert Table(m, Enqueuer) == m.enqs && Table(m, Dequeuer) == m.deqs;
  }

  /** Before the scan. */
  lemma {:induction false} FirstFound(m: Memory, k: nat, t: nat)
    requires k < |m.ts| && |m.deqs| > 0 && Found(m, m.ts[k].rec) && RecOk(m, m.ts[k].rec)
    requires m.ts[k].rec.Claim? || m.ts[k].rec.LoadFirst? || m.ts[k].rec.LoadMin? || (m.ts[k].rec.No? && Due(m, k, t))
    ensures var m' := Reclaiming(m, k, t); m'.ts[k].rec != No && Found(m', m'.ts[k].rec)
  {
    if m.ts[k].rec.LoadMin? {
      var m' := Reclaiming(m, k, t);
      assert Table(m', Dequeuer) == m.deqs && Ptr(m', m.deqs[0]) == Ptr(m, m.deqs[0]);
      assert SomeAt(m', Id(m'.nodes, Ptr(m', Table(m', Dequeuer)[0])));
    }
  }

  lemma {:induction false} ScanMin(m: Memory, k: nat)
    requires k < |m.ts| && m.ts[k].rec.Scanning?
    ensures var r, r' := m.ts[k].rec, ScanStep(m, k).ts[k].rec;
      && (r'.Scanning? || r'.Decide?)
      && (r'.min == r.min || (r.i < |Table(m, r.role)| && r'.min == Ptr(m, Table(m, r.role)[r.i])))
  {
  }

  lemma {:induction false} ScanFound(m: Memory, k: nat, t: nat)
    requires k < |m.ts| && m.ts[k].rec.Scanning? && Found(m, m.ts[k].rec)
    ensures var m' := Reclaiming(m, k, t); m'.ts[k].rec != No && Found(m', m'.ts[k].rec)
  {
    var r := m.ts[k].rec;
    ScanMin(m, k);
    var min := ScanStep(m, k).ts[k].rec.min;
    if min != r.min {
      assert SomeAt(m, Id(m.nodes, Ptr(m, Table(m, r.role)[r.i])));
    }
    SameAt(m, k, t, Id(m.nodes, min));
    ReclaimIds(m, k, t, min);
  }

  lemma {:induction false} DecideFound(m: Memory, k: nat, t: nat)
    requires k < |m.ts| && m.ts[k].rec.Decide? && Found(m, m.ts[k].rec) && RecOk(m, m.ts[k].rec) && TablesOn(m)
    ensures var m' := Reclaiming(m, k, t);
      if m'.ts[k].rec == No then Swept(m') else Found(m', m'.ts[k].rec)
  {
    SameAt(m, k, t, Id(m.nodes, m.ts[k].rec.min));
    AllBehind(m);
    SameAbove(m, k, t, m.base);
  }

  lemma {:induction false} PublishFound(m: Memory, k: nat, t: nat)
    requires k < |m.ts| && m.ts[k].rec.Publish? && Found(m, m.ts[k].rec) && RecOk(m, m.ts[k].rec) && ChainOk(m)
    ensures var m' := Reclaiming(m, k, t); m'.ts[k].rec != No && Found(m', m'.ts[k].rec)
  {
    SameAt(m, k, t, m.ts[k].rec.newId);
    SameAbove(m, k, t, m.ts[k].rec.newId);
  }

  lemma {:induction false} FreeFound(m: Memory, k: nat, t: nat)
    requires k < |m.ts| && m.ts[k].rec.Free? && Found(m, m.ts[k].rec) && RecOk(m, m.ts[k].rec) && ChainOk(m)
    ensures var m' := Reclaiming(m, k, t);
      if m'.ts[k].rec == No then Swept(m') else Found(m', m'.ts[k].rec)
  {
    SameAt(m, k, t, m.base);
    SameAbove(m, k, t, m.base);
    FreeNext(m, k, t);
    FreeLinks(m, k, t);
  }

  lemma {:induction false} FoundGoesOn(m: Memory, k: nat, t: nat)
    requires k < |m.ts| && |m.deqs| > 0 && RecOk(m, m.ts[k].rec) && ChainOk(m) && TablesOn(m)
    requires Found(m, m.ts[k].rec) && (m.ts[k].rec != No || Due(m, k, t))
    ensures var m' := Reclaiming(m, k, t); if m'.ts[k].rec == No then Swept(m') else Found(m', m'.ts[k].rec)
  {
    match m.ts[k].rec
    case Scanning(_, _, _, _, _) => ScanFound(m, k, t);
    case Decide(_, _, _) => DecideFound(m, k, t);
    case Publish(_, _, _) => PublishFound(m, k, t);
    case Free(_, _) => FreeFound(m, k, t);
    case _ => FirstFound(m, k, t);
  }

  lemma {:induction false} FreeLeft(m: Memory, k: nat, t: nat)
    requires k < |m.ts| && m.ts[k].rec.Free? && RecOk(m, m.ts[k].rec) && ChainOk(m)
    ensures var m' := Reclaiming(m, k, t); m'.ts[k].rec == No || RecLeft(m', k, t) < RecLeft(m, k, t)
  {
    FreeNext(m, k, t);
    FreeLinks(m, k, t);
  }

  lemma {:induction false} ScanLeft(m: Memory, k: nat, t: nat)
    requires k < |m.ts| && m.ts[k].rec.Scanning?
    ensures RecLeft(Reclaiming(m, k, t), k, t) < RecLeft(m, k, t)
  {
  }

  /** Reclamation ends. */
  lemma {:induction false} RecGoesOn(m: Memory, k: nat, t: nat)
    requires k < |m.ts| && |m.deqs| > 0 && RecOk(m, m.ts[k].rec) && ChainOk(m)
    ensures var m' := Reclaiming(m, k, t); |m'.ts| == |m.ts| && (m'.ts[k].rec == No || RecLeft(m', k, t) < RecLeft(m, k, t))
  {
    ReclaimShape(m, k, t);
    if m.ts[k].rec.Free? {
      FreeLeft(m, k, t);
    } else if m.ts[k].rec.Scanning? {
      ScanLeft(m, k, t);
    }
  }

  /** What the invariant says of a dequeuer that has its value. */
  lemma {:induction false} Reclaimer(s: State, k: nat)
    requires Reached(s) && PcOf(s, k).Have?
    ensures k < |s.m.ts| == |s.y.pcs| == |s.y.flag| && ChainOk(s.m) && RecOk(s.m, s.m.ts[k].rec)
    ensures |s.m.deqs| > 0 && TablesOn(s.m)
  {
    ReachedInv(s);
    assert ThreadOk(s.y, s.m, k);
    HandlesOn(s.y, s.m);
    assert TableOk(s.m.ts, s.m.deqs, Dequeuer);
    assert k in s.m.deqs;
  }

  /** Thread `k` is reclaiming, alone so far, or about to. */
  ghost predicate Sweeps(m: Memory, k: nat, t: nat)
    requires k < |m.ts|
  {
    Found(m, m.ts[k].rec) && (m.ts[k].rec != No || Due(m, k, t))
  }

  lemma {:induction false} HaveGoesOn(s: State, k: nat, t: nat)
    requires Reached(s) && PcOf(s, k).Have? && PcOf(s, k).t == t && k < |s.m.ts|
    ensures var s' := Take(s, Go(k, false));
      && k < |s'.m.ts| && s'.m == Reclaiming(s.m, k, t)
      && if s'.m.ts[k].rec == No then PcOf(s', k) == Idle
         else PcOf(s', k) == PcOf(s, k) && RecLeft(s'.m, k, t) < RecLeft(s.m, k, t)
    ensures var m' := Take(s, Go(k, false)).m;
      Sweeps(s.m, k, t) ==> if m'.ts[k].rec == No then Swept(m') else Sweeps(m', k, t)
  {
    Reclaimer(s, k);
    RecGoesOn(s.m, k, t);
    if Sweeps(s.m, k, t) {
      FoundGoesOn(s.m, k, t);
    }
  }

  lemma {:induction false} HaveAlone(s: State, k: nat, t: nat) returns (more: seq<Step>, tr: seq<State>)
    requires Reached(s) && PcOf(s, k).Have? && PcOf(s, k).t == t && k < |s.m.ts|
    ensures Within(s, k, more, tr, |more|) && PcOf(tr[|more|], k) == Idle
    ensures forall c :: 0 <= c < |more| ==> more[c] == Go(k, false)
    ensures Sweeps(s.m, k, t) ==> Swept(tr[|more|].m)
    decreases RecLeft(s.m, k, t)
  {
    var step := Go(k, false);
    var s' := Take(s, step);
    HaveGoesOn(s, k, t);
    if s'.m.ts[k].rec == No {
      TraceOne(Take, s, step);
      more, tr := [step], [s, s'];
    } else {
      ReachedStep(s, step);
      var rest, states := HaveAlone(s', k, t);
      TracePrepend(Take, s, step, rest, states);
      more, tr := [step] + rest, [s] + states;
    }
  }

  // ----- a dequeue

  /** A dequeuer whose value has been stored, and who has not had to wait for it. */
  ghost predicate Served(s: State, d: nat, t: nat) {
    PcOf(s, d) == Get(t) && t in s.y.sent
  }

  lemma {:induction false} ServedGoesOn(s: State, d: nat, t: nat)
    requires Reached(s) && Served(s, d, t)
    ensures var s' := Take(s, Go(d, false));
      && d < |s.m.ts| && d < |s'.m.ts|
      && if s.m.ts[d].find == Rest then PcOf(s', d).Have? && PcOf(s', d).t == t
         else Served(s', d, t) && FindLeft(s'.m, d, t) < FindLeft(s.m, d, t)
  {
    Seeking(s, d);
    if s.m.ts[d].find == Rest {
      ServedFinds(s, d, t);
    } else {
      FindStep(s, d);
    }
  }

  lemma {:induction false} ServedFinds(s: State, d: nat, t: nat)
    requires Reached(s) && Served(s, d, t) && d < |s.m.ts| && s.m.ts[d].find == Rest
    ensures CellHere(s.m, d, t) != Null
  {
    ReachedInv(s);
    assert ThreadOk(s.y, s.m, d) && PcOk(s.y, Cells(s.m), d);
    Here(s.m, d, t);
  }

  lemma {:induction false} ServedAlone(s: State, d: nat, t: nat) returns (more: seq<Step>, tr: seq<State>)
    requires Reached(s) && Served(s, d, t) && d < |s.m.ts|
    ensures Within(s, d, more, tr, |more|) && PcOf(tr[|more|], d) == Idle
    ensures forall c :: 0 <= c < |more| ==> more[c] == Go(d, false)
    decreases FindLeft(s.m, d, t) + if s.m.ts[d].find == Rest then 0 else 1
  {
    var step := Go(d, false);
    var s' := Take(s, step);
    ServedGoesOn(s, d, t);
    ReachedStep(s, step);
    var rest, states;
    if s.m.ts[d].find == Rest {
      rest, states := HaveAlone(s', d, t);
    } else {
      rest, states := ServedAlone(s', d, t);
    }
    TracePrepend(Take, s, step, rest, states);
    more, tr := [step] + rest, [s] + states;
  }

  lemma {:induction false} ServedStarts(s: State, d: nat)
    requires Waits(s, d, Dequeuer) && s.y.pop in s.y.sent
    ensures Served(Take(s, StartDequeue(d)), d, s.y.pop) && d < |Take(s, StartDequeue(d)).m.ts|
  {
  }

  /** A dequeue whose value has been stored returns that is left alone, reclamation included. */
  lemma {:induction false} DequeueAlone(bits: nat, threshold: int, roles: seq<Role>, steps: seq<Step>, d: nat)
    returns (more: seq<Step>, tr: seq<State>)
    requires Waits(Run(Init(bits, threshold, roles), steps), d, Dequeuer)
    requires var y := Run(Init(bits, threshold, roles), steps).y; y.pop in y.sent
    ensures Returns(Run(Init(bits, threshold, roles), steps), StartDequeue(d), more, tr)
    ensures forall c :: 0 <= c < |more| ==> more[c] == Go(d, false)
  {
    var s := Run(Init(bits, threshold, roles), steps);
    assert Reached(s);
    ReachedStep(s, StartDequeue(d));
    ServedStarts(s, d);
    more, tr := ServedAlone(Take(s, StartDequeue(d)), d, s.y.pop);
  }

  /** A dequeuer that has taken the last cell of a segment, with as many segments before it as the threshold says and
      nobody else at it, sweeps when left alone: afterwards the list starts where the hindmost handle is, every
      segment before that has been freed but for those another thread is about to free, and none after it has. */
  lemma {:induction false} SweepAlone(bits: nat, threshold: int, roles: seq<Role>, steps: seq<Step>, d: nat)
    returns (more: seq<Step>, tr: seq<State>)
    requires var s := Run(Init(bits, threshold, roles), steps);
      PcOf(s, d).Have? && d < |s.m.ts| && s.m.ts[d].rec == No && Due(s.m, d, PcOf(s, d).t)
    ensures Trace(Take, Run(Init(bits, threshold, roles), steps), more, tr) && PcOf(tr[|more|], d) == Idle
    ensures forall c :: 0 <= c < |more| ==> more[c] == Go(d, false)
    ensures var m := tr[|more|].m;
      && Swept(m)
      && forall q :: 0 <= q < |m.chain| && m.chain[q] < |m.nodes| ==>
           (m.nodes[m.chain[q]].freed <==> q < m.base && !BeingFreed(m, q))
  {
    var s := Run(Init(bits, threshold, roles), steps);
    assert Reached(s);
    Idles(s);
    more, tr := HaveAlone(s, d, PcOf(s, d).t);
    TraceReached(s, more, tr, |more|);
    FreedExactly(tr[|more|]);
  }

  lemma {:induction false} Idles(s: State)
    requires Reached(s)
    ensures s.m.initId >= 0 ==> s.m.initId == s.m.base
  {
    ReachedInv(s);
  }

  lemma {:induction false} FreedExactly(s: State)
    requires Reached(s)
    ensures FreedOk(s.m)
  {
    ReachedInv(s);
  }
}
