/** The pool protocol: who holds which mutex, how `idlethreads` counts, and when the pool stops. */
module QsortPoolSafe {
  import opened Options
  import opened Ordering
  import opened Quicksort
  import opened QsortPool

  // ----- what every state satisfies

  predicate Resting(c: Pc) {
    c.Again? || c.Test? || c.Waiting?
  }

  /** In `qsort_algo`, after it has read its arguments, or on the way to report that it is done. */
  predicate Engaged(c: Pc) {
    c.Busy? || c.Parts? || c.Return? || c.Allocate? || c.Search? || c.Claim? || c.Give? || c.Finish? || c.Count?
  }

  predicate HoldsAl(c: Pc) {
    c.Search? || c.Claim? || c.Count? || c.Stop?
  }

  /** Another worker has made slot `k` work and is about to say on what. */
  predicate BeingGiven(p: Pool, k: nat)
    requires k < |p.pcs| == |p.mtx|
  {
    && (p.pcs[k].Again? || p.pcs[k].Waiting?)
    && p.mtx[k].Some? && p.mtx[k].value < |p.pcs|
    && p.pcs[p.mtx[k].value].Give? && p.pcs[p.mtx[k].value].i == k
  }

  /** A slot is idle while its thread rests, works from the moment it is allocated until its thread
      reports back, and is told to terminate only when the pool stops. */
  ghost predicate SlotOk(p: Pool, k: nat)
    requires k < |p.pcs| == |p.mtx| == |p.slots|
  {
    var slot, c := p.slots[k], p.pcs[k];
    match slot.st
    case Idle => !slot.given && (Resting(c) || (p.down && (c.Stop? || c.Exited?)))
    case Work =>
      && !p.down
      && if slot.given then c.Again? || c.Test? || c.Look? || c.Enter?
         else Engaged(c) || BeingGiven(p, k)
    case Term => p.down && !slot.given && (c.Again? || c.Test? || c.Look? || c.Exited?)
  }

  ghost predicate LockOk(p: Pool, i: nat)
    requires i < |p.pcs| == |p.mtx| == |p.slots|
  {
    && (p.mtx[i].Some? ==>
          var h := p.mtx[i].value;
          || (h == i && p.pcs[i].Test?)
          || (h < |p.pcs| && p.pcs[h].Give? && p.pcs[h].i == i)
          || (h == |p.pcs| && i == 0 && p.main == Hand))
    && (p.pcs[i].Test? ==> p.mtx[i] == Some(i))
    && (p.pcs[i].Give? ==>
          var j := p.pcs[i].i;
          j < |p.pcs| && p.mtx[j] == Some(i) && p.slots[j].st == Work && !p.slots[j].given && BeingGiven(p, j))
    && (p.pcs[i].Claim? ==> p.pcs[i].i < |p.slots| && p.slots[p.pcs[i].i].st == Idle)
    && (HoldsAl(p.pcs[i]) ==> p.al == Some(i))
  }

  ghost predicate MainOk(p: Pool)
    requires 0 < |p.pcs| == |p.mtx| == |p.slots|
  {
    && (p.main != Join ==> !p.down && forall k :: 0 <= k < |p.slots| ==> p.slots[k].st == Idle)
    && (p.main == Hand ==> p.mtx[0] == Some(|p.pcs|))
    && (p.al.Some? ==> p.al.value < |p.pcs| && HoldsAl(p.pcs[p.al.value]))
  }

  /** The number of idle slots. */
  function IdleSlots(slots: seq<Slot>): nat {
    if slots == [] then 0
    else IdleSlots(slots[..|slots| - 1]) + if slots[|slots| - 1].st == Idle then 1 else 0
  }

  /** Whether a thread has counted an idle slot as taken without having taken it yet. */
  function Claiming(p: Pool): int {
    if p.al.Some? && p.al.value < |p.pcs| && p.pcs[p.al.value].Claim? then 1 else 0
  }

  /** `idlethreads` counts the idle slots. */
  ghost predicate CountOk(p: Pool) {
    !p.down ==> p.idle + Claiming(p) == IdleSlots(p.slots)
  }

  ghost predicate SomeWork(p: Pool) {
    exists k :: 0 <= k < |p.slots| && p.slots[k].st == Work
  }

  /** Some thread is still about to stop slot `j`. */
  ghost predicate StopComing(p: Pool, j: nat) {
    exists k :: 0 <= k < |p.pcs| && k != j && p.pcs[k].Stop? && p.pcs[k].i <= j
  }

  /** While the main thread waits there is work, until the pool stops; then every slot is told. */
  ghost predicate DownOk(p: Pool)
    requires |p.pcs| == |p.slots|
  {
    && (p.main == Join && !p.down ==> SomeWork(p))
    && (p.down ==> forall j :: 0 <= j < |p.slots| && p.slots[j].st == Idle ==> p.pcs[j].Stop? || p.pcs[j].Exited? || StopComing(p, j))
  }

  ghost predicate Sized(p: Pool) {
    0 < |p.pcs| == |p.mtx| == |p.slots|
  }

  ghost predicate ThreadOk(p: Pool, k: nat)
    requires k < |p.pcs| == |p.mtx| == |p.slots|
  {
    SlotOk(p, k) && LockOk(p, k)
  }

  ghost predicate PoolOk(p: Pool) {
    && Sized(p)
    && (forall k :: 0 <= k < |p.slots| ==> ThreadOk(p, k))
    && MainOk(p) && CountOk(p) && DownOk(p)
  }

  // ----- counting

  lemma {:induction false} IdleUpdate(slots: seq<Slot>, i: nat, s: Slot)
    requires i < |slots|
    ensures IdleSlots(slots[i := s])
         == IdleSlots(slots) - (if slots[i].st == Idle then 1 else 0) + (if s.st == Idle then 1 else 0)
  {
    if i < |slots| - 1 {
      IdleUpdate(slots[..|slots| - 1], i, s);
      assert slots[i := s][..|slots| - 1] == slots[..|slots| - 1][i := s];
    } else {
      assert slots[i := s][..|slots| - 1] == slots[..|slots| - 1];
    }
  }

  lemma {:induction false} AllIdle(slots: seq<Slot>)
    ensures IdleSlots(slots) <= |slots|
    ensures IdleSlots(slots) == |slots| <==> forall k :: 0 <= k < |slots| ==> slots[k].st == Idle
  {
    if slots != [] {
      AllIdle(slots[..|slots| - 1]);
      assert forall k :: 0 <= k < |slots| - 1 ==> slots[..|slots| - 1][k] == slots[k];
    }
  }

  // ----- every step keeps it

  lemma {:induction false} InitPool(size: nat, threads: nat, forkelem: nat)
    requires threads >= 1
    ensures PoolOk(Init(seq(size, _ => 0), threads, forkelem).p)
  {
    var p := Init(seq(size, _ => 0), threads, forkelem).p;
    AllIdle(p.slots);
  }

  lemma {:induction false} StopKept(p: Pool, p': Pool, k: nat)
    requires k < |p.pcs| == |p'.pcs| && !p.pcs[k].Stop?
    requires forall j :: 0 <= j < |p.pcs| && j != k && p.pcs[j].Stop? ==> p'.pcs[j] == p.pcs[j]
    ensures forall j: nat :: StopComing(p, j) ==> StopComing(p', j)
  {
    forall j: nat | StopComing(p, j) ensures StopComing(p', j) {
      var l :| 0 <= l < |p.pcs| && l != j && p.pcs[l].Stop? && p.pcs[l].i <= j;
      assert p'.pcs[l].Stop? && p'.pcs[l].i <= j;
    }
  }

  /** A step of thread `k` that concerns only where it stands, outside all mutexes. */
  lemma {:induction false} Quiet(p: Pool, k: nat, c: Pc)
    requires PoolOk(p) && k < |p.pcs| && Engaged(p.pcs[k]) && Engaged(c)
    requires !p.pcs[k].Give? && !c.Give? && !HoldsAl(p.pcs[k]) && !HoldsAl(c)
    ensures PoolOk(At(p, k, c))
  {
    var p' := At(p, k, c);
    assert ThreadOk(p, k);
    forall j | 0 <= j < |p.slots| ensures ThreadOk(p', j) {
      assert ThreadOk(p, j);
    }
  }

  lemma {:induction false} AgainThreads(p: Pool, k: nat, j: nat)
    requires Sized(p) && k < |p.pcs| && j < |p.pcs| && ThreadOk(p, k) && ThreadOk(p, j) && p.pcs[k].Again?
    ensures ThreadOk(Move(p, k), j)
  {
  }

  lemma {:induction false} AgainStep(p: Pool, k: nat)
    requires PoolOk(p) && k < |p.pcs| && p.pcs[k].Again?
    ensures PoolOk(Move(p, k))
  {
    var p' := Move(p, k);
    assert ThreadOk(p, k);
    StopKept(p, p', k);
    forall j | 0 <= j < |p.slots| ensures ThreadOk(p', j) {
      assert ThreadOk(p, j);
      AgainThreads(p, k, j);
    }
  }

  lemma {:induction false} TestThreads(p: Pool, k: nat, j: nat)
    requires Sized(p) && k < |p.pcs| && j < |p.pcs| && ThreadOk(p, k) && ThreadOk(p, j) && p.pcs[k].Test?
    ensures ThreadOk(Move(p, k), j)
  {
  }

  lemma {:induction false} TestStep(p: Pool, k: nat)
    requires PoolOk(p) && k < |p.pcs| && p.pcs[k].Test?
    ensures PoolOk(Move(p, k))
  {
    var p' := Move(p, k);
    assert ThreadOk(p, k);
    StopKept(p, p', k);
    forall j | 0 <= j < |p.slots| ensures ThreadOk(p', j) {
      assert ThreadOk(p, j);
      TestThreads(p, k, j);
    }
  }

  lemma {:induction false} LookThreads(p: Pool, k: nat, j: nat)
    requires Sized(p) && k < |p.pcs| && j < |p.pcs| && ThreadOk(p, k) && ThreadOk(p, j) && p.pcs[k].Look?
    ensures ThreadOk(Move(p, k), j)
  {
  }

  lemma {:induction false} LookStep(p: Pool, k: nat)
    requires PoolOk(p) && k < |p.pcs| && p.pcs[k].Look?
    ensures PoolOk(Move(p, k))
  {
    var p' := Move(p, k);
    assert ThreadOk(p, k);
    StopKept(p, p', k);
    forall j | 0 <= j < |p.slots| ensures ThreadOk(p', j) {
      assert ThreadOk(p, j);
      LookThreads(p, k, j);
    }
  }

  lemma {:induction false} SpuriousStep(p: Pool, k: nat)
    requires PoolOk(p) && k < |p.pcs| && p.pcs[k].Waiting?
    ensures PoolOk(At(p, k, Again))
  {
    var p' := At(p, k, Again);
    assert ThreadOk(p, k);
    StopKept(p, p', k);
    forall j | 0 <= j < |p.slots| ensures ThreadOk(p', j) {
      assert ThreadOk(p, j);
    }
  }

  /** Another working slot, or this one, shows that there still is work. */
  lemma {:induction false} StillWork(p: Pool, k: nat)
    requires k < |p.slots| && p.slots[k].st == Work
    ensures SomeWork(p)
  {
  }

  lemma {:induction false} EnterThreads(p: Pool, k: nat, j: nat)
    requires Sized(p) && k < |p.pcs| && j < |p.pcs| && ThreadOk(p, k) && ThreadOk(p, j) && p.pcs[k].Enter?
    ensures ThreadOk(Move(p, k), j)
  {
  }

  lemma {:induction false} EnterStep(p: Pool, k: nat)
    requires PoolOk(p) && k < |p.pcs| && p.pcs[k].Enter?
    ensures PoolOk(Move(p, k))
  {
    var p' := Move(p, k);
    assert ThreadOk(p, k);
    forall j | 0 <= j < |p.slots| ensures ThreadOk(p', j) {
      assert ThreadOk(p, j);
      EnterThreads(p, k, j);
    }
    IdleUpdate(p.slots, k, p'.slots[k]);
    StillWork(p', k);
  }

  lemma {:induction false} RecurseShape(p: Pool, k: nat)
    requires Sized(p) && k < |p.pcs| && (p.pcs[k].Parts? || p.pcs[k].Search?)
    ensures var r := Recurse(p, k);
      && r == p.(pcs := p.pcs[k := r.pcs[k]], slots := p.slots[k := r.slots[k]])
      && r.slots[k].st == p.slots[k].st
      && if r.pcs[k].Enter? then r.slots[k].given
         else (r.pcs[k].Busy? || r.pcs[k].Return?) && r.slots[k].given == p.slots[k].given
  {
  }

  lemma {:induction false} RecurseSelf(p: Pool, p': Pool, k: nat)
    requires Sized(p) && k < |p.pcs| && ThreadOk(p, k) && (p.pcs[k].Parts? || p.pcs[k].Search?)
    requires p' == Recurse(p, k).(al := if p.pcs[k].Search? then None else p.al)
    ensures ThreadOk(p', k)
  {
    RecurseShape(p, k);
  }

  lemma {:induction false} RecurseOther(p: Pool, p': Pool, k: nat, j: nat)
    requires Sized(p) && k < |p.pcs| && j < |p.pcs| && j != k && ThreadOk(p, k) && ThreadOk(p, j) && (p.pcs[k].Parts? || p.pcs[k].Search?)
    requires p' == Recurse(p, k).(al := if p.pcs[k].Search? then None else p.al)
    ensures ThreadOk(p', j)
  {
    RecurseShape(p, k);
  }

  /** Sorting the left part itself, after finding no idle slot or not looking for one. */
  lemma {:induction false} RecurseStep(p: Pool, p': Pool, k: nat)
    requires PoolOk(p) && k < |p.pcs| && (p.pcs[k].Parts? || p.pcs[k].Search?)
    requires p' == Recurse(p, k).(al := if p.pcs[k].Search? then None else p.al)
    ensures PoolOk(p')
  {
    assert ThreadOk(p, k);
    forall j | 0 <= j < |p.slots| ensures ThreadOk(p', j) {
      assert ThreadOk(p, j);
      if j == k {
        RecurseSelf(p, p', k);
      } else {
        RecurseOther(p, p', k, j);
      }
    }
    IdleUpdate(p.slots, k, p'.slots[k]);
    StillWork(p', k);
  }

  lemma {:induction false} PartsStep(p: Pool, k: nat)
    requires PoolOk(p) && k < |p.pcs| && p.pcs[k].Parts?
    ensures PoolOk(Move(p, k))
  {
    var c := p.pcs[k];
    if c.nl > p.forkelem && c.nr > p.forkelem {
      Quiet(p, k, Allocate(c.cur, c.nl, c.nr, c.stack));
    } else {
      RecurseStep(p, Move(p, k), k);
    }
  }

  lemma {:induction false} TakeAlStep(p: Pool, k: nat)
    requires PoolOk(p) && k < |p.pcs| && (p.pcs[k].Allocate? || p.pcs[k].Finish?)
    ensures PoolOk(Move(p, k))
  {
    var p' := Move(p, k);
    assert ThreadOk(p, k);
    forall j | 0 <= j < |p.slots| ensures ThreadOk(p', j) {
      assert ThreadOk(p, j);
    }
    StillWork(p', k);
  }

  lemma {:induction false} SearchThreads(p: Pool, k: nat, j: nat)
    requires Sized(p) && k < |p.pcs| && j < |p.pcs| && ThreadOk(p, k) && ThreadOk(p, j) && p.pcs[k].Search? && p.pcs[k].i < |p.slots|
    ensures ThreadOk(Move(p, k), j)
  {
  }

  lemma {:induction false} SearchStep(p: Pool, k: nat)
    requires PoolOk(p) && k < |p.pcs| && p.pcs[k].Search?
    ensures PoolOk(Move(p, k))
  {
    var p' := Move(p, k);
    assert ThreadOk(p, k);
    if p.pcs[k].i >= |p.slots| {
      RecurseStep(p, p', k);
    } else {
      forall j | 0 <= j < |p.slots| ensures ThreadOk(p', j) {
        assert ThreadOk(p, j);
        SearchThreads(p, k, j);
      }
      StillWork(p', k);
    }
  }

  lemma {:induction false} ClaimThreads(p: Pool, k: nat, j: nat)
    requires PoolOk(p) && k < |p.pcs| && p.pcs[k].Claim? && j < |p.pcs|
    ensures ThreadOk(Move(p, k), j)
  {
    assert ThreadOk(p, k) && ThreadOk(p, j) && ThreadOk(p, p.pcs[k].i);
  }

  lemma {:induction false} ClaimStep(p: Pool, k: nat)
    requires PoolOk(p) && k < |p.pcs| && p.pcs[k].Claim?
    ensures PoolOk(Move(p, k))
  {
    var p', i := Move(p, k), p.pcs[k].i;
    assert ThreadOk(p, k);
    if p' != p {
      forall j | 0 <= j < |p.slots| ensures ThreadOk(p', j) {
        ClaimThreads(p, k, j);
      }
      IdleUpdate(p.slots, i, p'.slots[i]);
      StillWork(p', i);
    }
  }

  lemma {:induction false} GiveThreads(p: Pool, k: nat, j: nat)
    requires Sized(p) && k < |p.pcs| && j < |p.pcs| && ThreadOk(p, k) && ThreadOk(p, j) && p.pcs[k].Give?
    ensures ThreadOk(Move(p, k), j)
  {
    if p.pcs[j].Give? && j != k {
      assert p.pcs[j].i != k && p.pcs[j].i != p.pcs[k].i;
    }
  }

  lemma {:induction false} GiveStep(p: Pool, k: nat)
    requires PoolOk(p) && k < |p.pcs| && p.pcs[k].Give?
    ensures PoolOk(Move(p, k))
  {
    var p', i := Move(p, k), p.pcs[k].i;
    assert ThreadOk(p, k);
    forall j | 0 <= j < |p.slots| ensures ThreadOk(p', j) {
      assert ThreadOk(p, j);
      GiveThreads(p, k, j);
    }
    IdleUpdate(p.slots, i, p'.slots[i]);
    StillWork(p', i);
  }

  lemma {:induction false} ReturnStep(p: Pool, k: nat)
    requires PoolOk(p) && k < |p.pcs| && p.pcs[k].Return?
    ensures PoolOk(Move(p, k))
  {
    Quiet(p, k, Move(p, k).pcs[k]);
  }

  /** If the counter says that every slot is idle, every slot is; if it does not, some slot still works. */
  lemma {:induction false} CountSlots(p: Pool, k: nat)
    requires PoolOk(p) && k < |p.pcs| && p.pcs[k].Count?
    ensures var p' := Move(p, k);
      && (p'.down ==> forall j :: 0 <= j < |p.slots| ==> p'.slots[j].st == Idle)
      && (!p'.down ==> SomeWork(p') && p'.idle == IdleSlots(p'.slots))
      && p'.down == (p'.idle == |p.slots|)
  {
    var p' := Move(p, k);
    assert ThreadOk(p, k);
    IdleUpdate(p.slots, k, p'.slots[k]);
    AllIdle(p'.slots);
    if !p'.down {
      var j :| 0 <= j < |p'.slots| && p'.slots[j].st != Idle;
      assert ThreadOk(p, j);
      StillWork(p', j);
    }
  }

  lemma {:induction false} CountThreads(p: Pool, k: nat, j: nat)
    requires PoolOk(p) && k < |p.pcs| && p.pcs[k].Count? && j < |p.pcs|
    ensures ThreadOk(Move(p, k), j)
  {
    CountSlots(p, k);
    assert ThreadOk(p, k) && ThreadOk(p, j);
    var p' := Move(p, k);
    assert p'.down ==> p'.slots[j].st == Idle;
  }

  lemma {:induction false} CountStep(p: Pool, k: nat)
    requires PoolOk(p) && k < |p.pcs| && p.pcs[k].Count?
    ensures PoolOk(Move(p, k))
  {
    var p' := Move(p, k);
    assert ThreadOk(p, k);
    CountSlots(p, k);
    forall j | 0 <= j < |p.slots| ensures ThreadOk(p', j) {
      CountThreads(p, k, j);
    }
    if p'.down {
      forall j | 0 <= j < |p.slots| && j != k ensures StopComing(p', j) {
        assert p'.pcs[k].Stop? && p'.pcs[k].i <= j;
      }
    }
  }

  /** The slot that is told to terminate is idle. */
  lemma {:induction false} StopThread(p: Pool, k: nat, j: nat)
    requires PoolOk(p) && k < |p.pcs| && p.pcs[k].Stop? && j < |p.pcs| && j != k && p.pcs[k].i == j
    ensures ThreadOk(Move(p, k), j)
  {
    assert ThreadOk(p, k) && ThreadOk(p, j);
    if p.pcs[j].Give? {
      assert ThreadOk(p, p.pcs[j].i);
    }
  }

  lemma {:induction false} StopOthers(p: Pool, k: nat, j: nat)
    requires PoolOk(p) && k < |p.pcs| && p.pcs[k].Stop? && j < |p.pcs| && (j == k || p.pcs[k].i != j)
    ensures ThreadOk(Move(p, k), j)
  {
    assert ThreadOk(p, k) && ThreadOk(p, j);
    if p.pcs[j].Give? {
      assert ThreadOk(p, p.pcs[j].i);
    }
  }

  lemma {:induction false} StopThreads(p: Pool, k: nat, j: nat)
    requires PoolOk(p) && k < |p.pcs| && p.pcs[k].Stop? && j < |p.pcs|
    ensures ThreadOk(Move(p, k), j)
  {
    if j != k && p.pcs[k].i == j {
      StopThread(p, k, j);
    } else {
      StopOthers(p, k, j);
    }
  }

  /** Only idle slots are told to terminate. */
  lemma {:induction false} StopStep(p: Pool, k: nat)
    requires PoolOk(p) && k < |p.pcs| && p.pcs[k].Stop?
    ensures PoolOk(Move(p, k))
    ensures forall j :: 0 <= j < |p.slots| && Move(p, k).slots[j].st != p.slots[j].st ==> p.slots[j].st == Idle
  {
    var p', i := Move(p, k), p.pcs[k].i;
    assert ThreadOk(p, k);
    if i < |p.slots| {
      assert ThreadOk(p, i);
    }
    forall j | 0 <= j < |p.slots| ensures ThreadOk(p', j) {
      StopThreads(p, k, j);
    }
    forall j | 0 <= j < |p.slots| && p'.slots[j].st == Idle && !p'.pcs[j].Stop? && !p'.pcs[j].Exited? ensures StopComing(p', j) {
      assert p'.slots[j].st == p.slots[j].st;
      assert StopComing(p, j);
      var l :| 0 <= l < |p.pcs| && l != j && p.pcs[l].Stop? && p.pcs[l].i <= j;
      assert ThreadOk(p, l) && l == k;
      assert p'.pcs[k].Stop? && p'.pcs[k].i <= j;
    }
  }

  lemma {:induction false} MainStep(p: Pool)
    requires PoolOk(p)
    ensures PoolOk(MoveMain(p))
  {
    var p' := MoveMain(p);
    forall j | 0 <= j < |p.slots| ensures ThreadOk(p', j) {
      assert ThreadOk(p, j) && ThreadOk(p, 0);
    }
    if p.main == Hand {
      IdleUpdate(p.slots, 0, p'.slots[0]);
      StillWork(p', 0);
    }
  }

  lemma {:induction false} MoveKeeps(p: Pool, k: nat)
    requires PoolOk(p) && k < |p.pcs|
    ensures PoolOk(Move(p, k))
  {
    match p.pcs[k]
    case Again => AgainStep(p, k);
    case Test => TestStep(p, k);
    case Look => LookStep(p, k);
    case Enter(_) => EnterStep(p, k);
    case Parts(_, _, _, _) => PartsStep(p, k);
    case Return(_) => ReturnStep(p, k);
    case Allocate(_, _, _, _) => TakeAlStep(p, k);
    case Search(_, _, _, _, _) => SearchStep(p, k);
    case Claim(_, _, _, _, _) => ClaimStep(p, k);
    case Give(_, _, _, _, _) => GiveStep(p, k);
    case Finish => TakeAlStep(p, k);
    case Count => CountStep(p, k);
    case Stop(_) => StopStep(p, k);
    case _ =>
  }

  // ----- what a step leaves alone

  /** The steps in which a thread changes the slot of another. */
  predicate Reaches(c: Pc) {
    c.Claim? || c.Give? || c.Stop?
  }

  lemma {:induction false} ElsewhereSlots(p: Pool, k: nat, j: nat)
    requires Sized(p) && k < |p.pcs| && j < |p.pcs| && j != k && !(Reaches(p.pcs[k]) && j == p.pcs[k].i)
    ensures Move(p, k).slots[j] == p.slots[j]
  {
  }

  lemma {:induction false} ElsewherePcs(p: Pool, k: nat, j: nat)
    requires Sized(p) && k < |p.pcs| && j < |p.pcs| && j != k && !(Reaches(p.pcs[k]) && j == p.pcs[k].i)
    ensures Move(p, k).pcs[j] == p.pcs[j]
  {
  }

  lemma {:induction false} Elsewhere(p: Pool, k: nat, j: nat)
    requires Sized(p) && k < |p.pcs| && j < |p.pcs| && j != k && !(Reaches(p.pcs[k]) && j == p.pcs[k].i)
    ensures Move(p, k).slots[j] == p.slots[j] && Move(p, k).pcs[j] == p.pcs[j]
  {
    ElsewhereSlots(p, k, j);
    ElsewherePcs(p, k, j);
  }

  // ----- no deadlock

  /** Thread `k` can take a step: it has elements to compare, or its next access changes something. */
  ghost predicate Able(p: Pool, k: nat)
    requires Sized(p)
  {
    k < |p.pcs| && (p.pcs[k].Busy? || Move(p, k) != p)
  }

  /** These never have to wait for anybody. */
  predicate Unhindered(c: Pc) {
    c.Test? || c.Look? || c.Enter? || c.Busy? || c.Parts? || c.Search? || c.Give? || c.Return? || c.Count?
  }

  lemma {:induction false} UnhinderedAble(p: Pool, k: nat)
    requires PoolOk(p) && k < |p.pcs| && Unhindered(p.pcs[k])
    ensures Able(p, k)
  {
    assert ThreadOk(p, k);
    if !p.pcs[k].Busy? {
      assert Move(p, k).pcs[k] != p.pcs[k];
    }
  }

  /** Whoever holds a slot's mutex can go on, or is the main thread. */
  lemma {:induction false} SlotLockAble(p: Pool, i: nat) returns (k: nat)
    requires PoolOk(p) && i < |p.pcs| && p.mtx[i].Some? && p.main != Hand
    ensures Able(p, k)
  {
    assert ThreadOk(p, i);
    k := p.mtx[i].value;
    UnhinderedAble(p, k);
  }

  /** Whoever holds `mtx_al` can go on, or waits for a slot's mutex whose holder can: `mtx_al` is
      always taken before `mtx_st`. */
  lemma {:induction false} AlAble(p: Pool) returns (k: nat)
    requires PoolOk(p) && p.al.Some? && p.main != Hand
    ensures Able(p, k)
  {
    k := p.al.value;
    assert ThreadOk(p, k);
    var c := p.pcs[k];
    if Unhindered(c) {
      UnhinderedAble(p, k);
    } else if c.i < |p.pcs| && c.i != k && p.mtx[c.i].Some? {
      k := SlotLockAble(p, c.i);
    } else {
      assert Move(p, k).pcs[k] != c;
    }
  }

  /** A thread that has not exited, but for one that waits, can go on, or somebody it waits for can. */
  lemma {:induction false} OneAble(p: Pool, j: nat) returns (k: nat)
    requires PoolOk(p) && j < |p.pcs| && !p.pcs[j].Exited? && !p.pcs[j].Waiting? && p.main != Hand
    ensures Able(p, k)
  {
    assert ThreadOk(p, j);
    k := j;
    if Unhindered(p.pcs[j]) {
      UnhinderedAble(p, j);
    } else if p.pcs[j].Again? {
      if p.mtx[j].Some? {
        k := SlotLockAble(p, j);
      } else {
        assert Move(p, j).pcs[j] != p.pcs[j];
      }
    } else if p.al.Some? {
      k := AlAble(p);
    } else {
      assert Move(p, j).pcs[j] != p.pcs[j];
    }
  }

  /** If all threads wait or have exited, they have all exited: no signal was lost. */
  lemma {:induction false} NobodyWaitsForever(p: Pool, j: nat)
    requires PoolOk(p) && j < |p.pcs| && p.pcs[j].Waiting? && p.main == Join
    ensures exists k :: 0 <= k < |p.pcs| && !p.pcs[k].Waiting? && !p.pcs[k].Exited?
  {
    assert ThreadOk(p, j);
    if p.down {
      assert StopComing(p, j);
    } else {
      var k :| 0 <= k < |p.slots| && p.slots[k].st == Work;
      assert ThreadOk(p, k);
      if p.pcs[k].Waiting? {
        assert BeingGiven(p, k);
      }
    }
  }

  /** Until every thread has exited, some thread can take a step: the pool does not deadlock. */
  lemma {:induction false} NoDeadlock(p: Pool)
    requires PoolOk(p)
    ensures || MoveMain(p) != p
            || (exists k: nat :: Able(p, k))
            || (p.main == Join && forall k :: 0 <= k < |p.pcs| ==> p.pcs[k].Exited?)
  {
    if p.main == First {
      if p.mtx[0].Some? {
        var k := SlotLockAble(p, 0);
      }
    } else if p.main == Join {
      if j :| 0 <= j < |p.pcs| && !p.pcs[j].Exited? {
        var l := j;
        if p.pcs[j].Waiting? {
          NobodyWaitsForever(p, j);
          l :| 0 <= l < |p.pcs| && !p.pcs[l].Waiting? && !p.pcs[l].Exited?;
        }
        var k := OneAble(p, l);
      }
    }
  }
}
