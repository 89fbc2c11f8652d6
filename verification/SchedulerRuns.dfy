/** Over every run of the workers: every task is run at most once, and `done` is set once, after all of them. */
module SchedulerRuns {
  import opened Options
  import opened Scheduler
  import D = Deque
  import R = DequeRuns

  // ----- counting

  function Held(w: Worker, j: nat, x: D.Item): nat {
    if w.Print? && w.j == j && w.x == x then 1 else 0
  }

  /** How many workers have print task `x` of deque `j` in hand. */
  function InHand(ws: seq<Worker>, j: nat, x: D.Item): nat {
    if ws == [] then 0 else InHand(ws[..|ws| - 1], j, x) + Held(ws[|ws| - 1], j, x)
  }

  function Count(ws: seq<Worker>, f: Worker -> bool): nat {
    if ws == [] then 0 else Count(ws[..|ws| - 1], f) + if f(ws[|ws| - 1]) then 1 else 0
  }

  predicate Joins(w: Worker) { w.Join? }

  predicate Lasts(w: Worker) { w.Last? }

  lemma {:induction false} InHandUpdate(ws: seq<Worker>, k: nat, w: Worker, j: nat, x: D.Item)
    requires k < |ws|
    ensures InHand(ws[k := w], j, x) == InHand(ws, j, x) - Held(ws[k], j, x) + Held(w, j, x)
  {
    var front := ws[..|ws| - 1];
    if k < |ws| - 1 {
      InHandUpdate(front, k, w, j, x);
      assert ws[k := w][..|ws| - 1] == front[k := w];
    } else {
      assert ws[k := w][..|ws| - 1] == front;
    }
  }

  lemma {:induction false} CountUpdate(ws: seq<Worker>, k: nat, w: Worker, f: Worker -> bool)
    requires k < |ws|
    ensures Count(ws[k := w], f) == Count(ws, f) - (if f(ws[k]) then 1 else 0) + (if f(w) then 1 else 0)
  {
    var front := ws[..|ws| - 1];
    if k < |ws| - 1 {
      CountUpdate(front, k, w, f);
      assert ws[k := w][..|ws| - 1] == front[k := w];
    } else {
      assert ws[k := w][..|ws| - 1] == front;
    }
  }

  lemma {:induction false} CountSome(ws: seq<Worker>, k: nat, f: Worker -> bool)
    requires k < |ws| && f(ws[k])
    ensures Count(ws, f) >= 1
  {
    if k < |ws| - 1 { CountSome(ws[..|ws| - 1], k, f); }
  }

  /** How many print tasks have run. */
  function RunCount(ran: seq<multiset<D.Item>>): nat {
    if ran == [] then 0 else RunCount(ran[..|ran| - 1]) + |ran[|ran| - 1]|
  }

  lemma {:induction false} RunCountUpdate(ran: seq<multiset<D.Item>>, j: nat, m: multiset<D.Item>)
    requires j < |ran|
    ensures RunCount(ran[j := m]) == RunCount(ran) - |ran[j]| + |m|
  {
    var front := ran[..|ran| - 1];
    if j < |ran| - 1 {
      RunCountUpdate(front, j, m);
      assert ran[j := m][..|ran| - 1] == front[j := m];
    } else {
      assert ran[j := m][..|ran| - 1] == front;
    }
  }

  lemma {:induction false} TotalSame(qs: seq<D.State>, qs': seq<D.State>)
    requires |qs| == |qs'| && forall j :: 0 <= j < |qs| ==> qs'[j].pushed == qs[j].pushed
    ensures Total(qs') == Total(qs)
  {
    if qs != [] { TotalSame(qs[..|qs| - 1], qs'[..|qs| - 1]); }
  }

  // ----- the steps of one deque

  predicate InTake(o: D.Owner) {
    o.TakeLoadArray? || o.TakeStoreBottom? || o.TakeLoadTop? || o.TakeLoadSlot? || o.TakeCas? || o.TakeRestore?
  }

  /** A step that leaves what has been pushed, and answers `r` or does not answer. */
  ghost predicate Answers(q: D.State, q': D.State, r: Option<D.Answer>) {
    && q'.pushed == q.pushed && |q'.thieves| == |q.thieves|
    && (r == None ==> q'.out == q.out)
    && (r.Some? ==> q'.out == q.out + [r.value] && (r.value.Got? ==> r.value.slot.Some?))
  }

  /** A take goes on, or answers with an item or Empty. */
  lemma {:induction false} OwnerShape(q: D.State)
    requires InTake(q.owner) && D.OwnerOk(q)
    ensures var q' := D.Next(q, D.OwnerMove);
      && q'.pushed == q.pushed && q'.thieves == q.thieves
      && (if q'.owner.Idle? then q'.out == q.out + [Answered(q')] else InTake(q'.owner) && q'.out == q.out)
      && (q'.owner.Idle? ==> Answered(q').Got? || Answered(q').Empty?)
  {
  }

  lemma {:induction false} OwnerAnswers(q: D.State, q': D.State)
    requires D.Inv(q) && InTake(q.owner) && q' == D.Next(q, D.OwnerMove)
    ensures D.Inv(q') && Answers(q, q', if q'.owner.Idle? then Some(Answered(q')) else None)
  {
    OwnerShape(q);
    R.StepKeeps(q, D.OwnerMove);
    NotGarbage(q', q.out, Answered(q'));
  }

  lemma {:induction false} NotGarbage(q: D.State, out: seq<D.Answer>, r: D.Answer)
    requires D.NoGarbage(q.out)
    ensures q.out == out + [r] && r.Got? ==> r.slot.Some?
  {
    R.ItemsSnoc(out, r);
  }

  lemma {:induction false} ThiefShape(q: D.State, k: nat)
    requires k < |q.thieves| && !q.thieves[k].Away?
    ensures var q' := D.Next(q, D.ThiefMove(k));
      && |q'.thieves| == |q.thieves| && q'.thieves == q.thieves[k := q'.thieves[k]]
      && q'.owner == q.owner && q'.pushed == q.pushed
      && (if q'.thieves[k].Away? then q'.out == q.out + [Answered(q')] else q'.out == q.out)
  {
  }

  lemma {:induction false} ThiefAnswers(q: D.State, q': D.State, k: nat)
    requires D.Inv(q) && k < |q.thieves| == |q'.thieves| && !q.thieves[k].Away? && q' == D.Next(q, D.ThiefMove(k))
    ensures D.Inv(q') && Answers(q, q', if q'.thieves[k].Away? then Some(Answered(q')) else None)
  {
    ThiefShape(q, k);
    R.StepKeeps(q, D.ThiefMove(k));
    NotGarbage(q', q.out, Answered(q'));
  }

  lemma {:induction false} TakeShape(q: D.State)
    requires q.owner.Idle?
    ensures var q' := D.Next(q, D.StartTake); Answers(q, q', None) && InTake(q'.owner) && q'.thieves == q.thieves
  {
  }

  // ----- what every state satisfies

  ghost predicate QueueOk(s: State, j: nat)
    requires j < |s.qs| == |s.ws|
  {
    && |s.qs[j].thieves| == |s.ws|
    && (if s.ws[j].Taking? then InTake(s.qs[j].owner) else s.qs[j].owner.Idle?)
    && (forall k :: 0 <= k < |s.ws| ==> (s.qs[j].thieves[k].Away? <==> s.ws[k] != Stealing(j)))
  }

  ghost predicate DequesOk(qs: seq<D.State>) {
    forall j :: 0 <= j < |qs| ==> D.Inv(qs[j]) && qs[j].pushed != []
  }

  /** What a deque has given out has run or is in somebody's hands. */
  ghost predicate AccountedAt(s: State, j: nat, x: D.Item)
    requires j < |s.qs| == |s.ran|
  {
    multiset(D.Items(s.qs[j].out))[x] == s.ran[j][x] + InHand(s.ws, j, x)
  }

  ghost predicate Accounted(s: State, j: nat)
    requires j < |s.qs| == |s.ran|
  {
    forall x: D.Item :: AccountedAt(s, j, x)
  }

  predicate WorkerOk(w: Worker, k: nat, n: nat) {
    w != Lost && (w.Print? ==> w.j < n) && (w.Stealing? ==> w.i < n && w.i != k)
  }

  ghost predicate Sized(s: State) {
    && |s.ws| == |s.qs| == |s.ran|
    && (forall k :: 0 <= k < |s.ws| ==> WorkerOk(s.ws[k], k, |s.qs|))
  }

  ghost predicate Joined(s: State) {
    && s.joinCount + s.joined == Total(s.qs)
    && RunCount(s.ran) == s.joined + Count(s.ws, Joins)
    && (s.joinCount == 0 && Total(s.qs) > 0 ==> s.dones + Count(s.ws, Lasts) == 1)
    && (s.joinCount > 0 || Total(s.qs) == 0 ==> s.dones + Count(s.ws, Lasts) == 0)
    && (s.done <==> s.dones > 0)
    && (forall k :: 0 <= k < |s.ws| && s.ws[k].Exited? ==> s.done)
  }

  ghost predicate Inv(s: State) {
    && Sized(s) && DequesOk(s.qs)
    && (forall j :: 0 <= j < |s.qs| ==> QueueOk(s, j) && Accounted(s, j))
    && Joined(s)
  }

  /** No more has run than has been pushed, deque by deque. */
  lemma {:induction false} RanPushed(s: State, j: nat)
    requires j < |s.qs| == |s.ran| && D.Conserved(D.BooksOf(s.qs[j])) && Accounted(s, j)
    ensures s.ran[j] <= multiset(s.qs[j].pushed) && |s.ran[j]| <= |s.qs[j].pushed|
    ensures |s.ran[j]| == |s.qs[j].pushed| ==> s.ran[j] == multiset(s.qs[j].pushed)
  {
    var items, pushed := multiset(D.Items(s.qs[j].out)), multiset(s.qs[j].pushed);
    assert items <= pushed by { ItemsPushed(s.qs[j]); }
    forall x: D.Item ensures s.ran[j][x] <= items[x] {
      assert AccountedAt(s, j, x);
    }
    Contained(s.ran[j], pushed);
  }

  lemma {:induction false} ItemsPushed(q: D.State)
    requires D.Conserved(D.BooksOf(q))
    ensures multiset(D.Items(q.out)) <= multiset(q.pushed)
  {
    var b := D.BooksOf(q);
    assert D.Total(b) == multiset(D.Items(b.out)) + multiset(b.flying) + multiset(b.rest);
  }

  lemma {:induction false} Contained(a: multiset<D.Item>, b: multiset<D.Item>)
    requires a <= b
    ensures |a| <= |b| && (|a| == |b| ==> a == b)
  {
    var rest := b - a;
    assert b == a + rest;
    if |rest| == 0 {
      assert rest == multiset{};
    }
  }

  lemma {:induction false} RunBound(s: State, n: nat)
    requires n <= |s.qs| == |s.ran|
    requires forall j :: 0 <= j < n ==> |s.ran[j]| <= |s.qs[j].pushed|
    ensures RunCount(s.ran[..n]) <= Total(s.qs[..n])
    ensures RunCount(s.ran[..n]) == Total(s.qs[..n]) ==> forall j :: 0 <= j < n ==> |s.ran[j]| == |s.qs[j].pushed|
  {
    if n > 0 {
      RunBound(s, n - 1);
      assert s.ran[..n][..n - 1] == s.ran[..n - 1] && s.qs[..n][..n - 1] == s.qs[..n - 1];
    }
  }

  lemma {:induction false} RanOk(s: State, j: nat)
    requires Inv(s) && j < |s.qs|
    ensures s.ran[j] <= multiset(s.qs[j].pushed) && |s.ran[j]| <= |s.qs[j].pushed|
    ensures |s.ran[j]| == |s.qs[j].pushed| ==> s.ran[j] == multiset(s.qs[j].pushed)
  {
    assert Accounted(s, j) && D.Inv(s.qs[j]);
    RanPushed(s, j);
  }

  lemma {:induction false} EachRan(s: State)
    requires Inv(s)
    ensures forall j :: 0 <= j < |s.qs| ==> |s.ran[j]| <= |s.qs[j].pushed|
  {
    forall j | 0 <= j < |s.qs| ensures |s.ran[j]| <= |s.qs[j].pushed| {
      RanOk(s, j);
    }
  }

  /** No more has run than has been pushed in all, and if as much has run, all of it has. */
  lemma {:induction false} AllRan(s: State)
    requires |s.qs| == |s.ran| && forall j :: 0 <= j < |s.qs| ==> |s.ran[j]| <= |s.qs[j].pushed|
    ensures RunCount(s.ran) <= Total(s.qs)
    ensures RunCount(s.ran) == Total(s.qs) ==> forall j :: 0 <= j < |s.qs| ==> |s.ran[j]| == |s.qs[j].pushed|
  {
    RunBound(s, |s.qs|);
    assert s.ran[..|s.qs|] == s.ran && s.qs[..|s.qs|] == s.qs;
  }

  // ----- every step keeps it

  lemma {:induction false} InitQueues(qs: seq<D.State>)
    requires forall j :: 0 <= j < |qs| ==> Filled(qs[j], |qs|)
    ensures DequesOk(qs) && Sized(Init(qs)) && forall j :: 0 <= j < |qs| ==> QueueOk(Init(qs), j)
  {
    forall j | 0 <= j < |qs| ensures QueueOk(Init(qs), j) && D.Inv(qs[j]) && qs[j].pushed != [] {
      assert Filled(qs[j], |qs|);
    }
  }

  lemma {:induction false} InitKeeps(qs: seq<D.State>)
    requires forall j :: 0 <= j < |qs| ==> Filled(qs[j], |qs|)
    ensures Inv(Init(qs))
  {
    var s := Init(qs);
    InitQueues(qs);
    NoneYet(s.ws, s.ran);
    forall j | 0 <= j < |qs| ensures Accounted(s, j) {
      assert Filled(qs[j], |qs|);
      forall x: D.Item ensures AccountedAt(s, j, x) {
        NobodyHolds(s.ws, j, x);
      }
    }
    if |qs| > 0 {
      assert Total(qs) >= |qs[|qs| - 1].pushed| > 0;
    }
  }

  lemma {:induction false} NobodyHolds(ws: seq<Worker>, j: nat, x: D.Item)
    requires forall k :: 0 <= k < |ws| ==> ws[k] == Loop
    ensures InHand(ws, j, x) == 0
  {
    if ws != [] { NobodyHolds(ws[..|ws| - 1], j, x); }
  }

  lemma {:induction false} NoneYet(ws: seq<Worker>, ran: seq<multiset<D.Item>>)
    requires forall k :: 0 <= k < |ws| ==> ws[k] == Loop
    requires forall k :: 0 <= k < |ran| ==> ran[k] == multiset{}
    ensures Count(ws, Joins) == 0 && Count(ws, Lasts) == 0 && RunCount(ran) == 0
    decreases |ws| + |ran|
  {
    if ws != [] { NoneYet(ws[..|ws| - 1], []); }
    if ran != [] { NoneYet([], ran[..|ran| - 1]); }
  }

  /** A worker steps on deque `i` and gets answer `r`, or none yet. */
  ghost predicate OnDeque(s: State, s': State, k: nat, i: nat, r: Option<D.Answer>) {
    && k < |s.ws| == |s'.ws| && i < |s.qs| == |s'.qs|
    && s' == s.(ws := s.ws[k := s'.ws[k]], qs := s.qs[i := s'.qs[i]])
    && Answers(s.qs[i], s'.qs[i], r)
    && !s.ws[k].Print? && !s.ws[k].Join? && !s.ws[k].Last? && !s'.ws[k].Join? && !s'.ws[k].Last? && !s'.ws[k].Exited?
    && if r.Some? && r.value.Got? then s'.ws[k] == Print(i, r.value.slot.value) else !s'.ws[k].Print?
  }

  lemma {:induction false} OnDequeAccounted(s: State, s': State, k: nat, i: nat, r: Option<D.Answer>, j: nat, x: D.Item)
    requires |s.qs| == |s.ran| && OnDeque(s, s', k, i, r) && j < |s.qs| && AccountedAt(s, j, x)
    ensures AccountedAt(s', j, x)
  {
    InHandUpdate(s.ws, k, s'.ws[k], j, x);
    if j == i && r.Some? {
      ItemsCount(s.qs[i].out, r.value, x);
    }
  }

  lemma {:induction false} OnDequeAll(s: State, s': State, k: nat, i: nat, r: Option<D.Answer>)
    requires |s.qs| == |s.ran| && OnDeque(s, s', k, i, r) && forall j :: 0 <= j < |s.qs| ==> Accounted(s, j)
    ensures forall j :: 0 <= j < |s.qs| ==> Accounted(s', j)
  {
    forall j | 0 <= j < |s.qs| ensures Accounted(s', j) {
      forall x: D.Item ensures AccountedAt(s', j, x) {
        assert Accounted(s, j) && AccountedAt(s, j, x);
        OnDequeAccounted(s, s', k, i, r, j, x);
      }
    }
  }

  lemma {:induction false} ItemsCount(out: seq<D.Answer>, r: D.Answer, x: D.Item)
    ensures multiset(D.Items(out + [r]))[x]
         == multiset(D.Items(out))[x] + if r.Got? && r.slot == Some(x) then 1 else 0
  {
    R.ItemsSnoc(out, r);
  }

  lemma {:induction false} OnDequeJoined(s: State, s': State, k: nat, i: nat, r: Option<D.Answer>)
    requires Joined(s) && OnDeque(s, s', k, i, r)
    ensures Joined(s')
  {
    CountUpdate(s.ws, k, s'.ws[k], Joins);
    CountUpdate(s.ws, k, s'.ws[k], Lasts);
    TotalSame(s.qs, s'.qs);
  }

  lemma {:induction false} DequesKept(qs: seq<D.State>, i: nat, q: D.State)
    requires DequesOk(qs) && i < |qs| && D.Inv(q) && q.pushed == qs[i].pushed
    ensures DequesOk(qs[i := q])
  {
  }

  lemma {:induction false} InvParts(s: State)
    requires Inv(s)
    ensures Sized(s)
    ensures DequesOk(s.qs)
    ensures forall j :: 0 <= j < |s.qs| ==> Accounted(s, j)
    ensures Joined(s)
  {
  }

  lemma {:induction false} InvFrom(s: State)
    requires Sized(s) && DequesOk(s.qs) && Joined(s) && forall j :: 0 <= j < |s.qs| ==> QueueOk(s, j) && Accounted(s, j)
    ensures Inv(s)
  {
  }

  lemma {:induction false} OnDequeSized(s: State, s': State, k: nat, i: nat, r: Option<D.Answer>)
    requires Sized(s) && OnDeque(s, s', k, i, r) && WorkerOk(s'.ws[k], k, |s.qs|)
    ensures Sized(s')
  {
  }

  lemma {:induction false} OnDequeDeques(s: State, s': State, k: nat, i: nat, r: Option<D.Answer>)
    requires DequesOk(s.qs) && OnDeque(s, s', k, i, r) && D.Inv(s'.qs[i])
    ensures DequesOk(s'.qs)
  {
    DequesKept(s.qs, i, s'.qs[i]);
  }

  lemma {:induction false} OnDequeKeeps(s: State, s': State, k: nat, i: nat, r: Option<D.Answer>)
    requires Inv(s) && OnDeque(s, s', k, i, r) && WorkerOk(s'.ws[k], k, |s.qs|) && D.Inv(s'.qs[i])
    requires forall j :: 0 <= j < |s.qs| ==> QueueOk(s', j)
    ensures Inv(s')
  {
    InvParts(s);
    OnDequeJoined(s, s', k, i, r);
    OnDequeAll(s, s', k, i, r);
    OnDequeSized(s, s', k, i, r);
    OnDequeDeques(s, s', k, i, r);
    InvFrom(s');
  }

  /** A worker steps on its own deque. */
  lemma {:induction false} OwnQueue(s: State, s': State, k: nat, r: Option<D.Answer>)
    requires Sized(s) && OnDeque(s, s', k, k, r) && forall j :: 0 <= j < |s.qs| ==> QueueOk(s, j)
    requires if s'.ws[k].Taking? then InTake(s'.qs[k].owner) else s'.qs[k].owner.Idle?
    requires s'.qs[k].thieves == s.qs[k].thieves && !s.ws[k].Stealing? && !s'.ws[k].Stealing?
    ensures forall j :: 0 <= j < |s.qs| ==> QueueOk(s', j)
  {
    forall j | 0 <= j < |s.qs| ensures QueueOk(s', j) {
      assert QueueOk(s, j);
    }
  }

  /** A worker steps on the deque of another. */
  lemma {:induction false} OtherQueue(s: State, s': State, k: nat, i: nat, r: Option<D.Answer>)
    requires Sized(s) && OnDeque(s, s', k, i, r) && i != k && forall j :: 0 <= j < |s.qs| ==> QueueOk(s, j)
    requires !s.ws[k].Taking? && !s'.ws[k].Taking? && s'.qs[i].owner == s.qs[i].owner
    requires |s'.qs[i].thieves| == |s.qs[i].thieves| == |s.ws| && s'.qs[i].thieves == s.qs[i].thieves[k := s'.qs[i].thieves[k]]
    requires s'.qs[i].thieves[k].Away? <==> s'.ws[k] != Stealing(i)
    requires (s.ws[k].Stealing? ==> s.ws[k].i == i) && (s'.ws[k].Stealing? ==> s'.ws[k].i == i)
    ensures forall j :: 0 <= j < |s.qs| ==> QueueOk(s', j)
  {
    forall j | 0 <= j < |s.qs| ensures QueueOk(s', j) {
      assert QueueOk(s, j);
    }
  }

  lemma {:induction false} LoopStep(s: State, k: nat)
    requires Inv(s) && k < |s.ws| && s.ws[k].Loop?
    ensures Inv(Next(s, k))
  {
    var s' := Next(s, k);
    assert QueueOk(s, k);
    TakeShape(s.qs[k]);
    R.StepKeeps(s.qs[k], D.StartTake);
    OwnQueue(s, s', k, None);
    OnDequeKeeps(s, s', k, k, None);
  }

  /** What a worker does after owner step `q` on its deque. */
  function AfterTake(s: State, k: nat, q: D.State): State
    requires k < |s.ws| == |s.qs|
  {
    At(s, k, if q.owner.Idle? then Received(k, Answered(q), Scan(0), Lost) else Taking).(qs := s.qs[k := q])
  }

  lemma {:induction false} TakingOn(s: State, s': State, k: nat, q: D.State)
    requires Sized(s) && k < |s.ws| && s.ws[k].Taking? && s' == AfterTake(s, k, q)
    requires Answers(s.qs[k], q, if q.owner.Idle? then Some(Answered(q)) else None)
    requires q.owner.Idle? ==> Answered(q).Got? || Answered(q).Empty?
    ensures OnDeque(s, s', k, k, if q.owner.Idle? then Some(Answered(q)) else None) && WorkerOk(s'.ws[k], k, |s.qs|)
    ensures s'.ws[k].Taking? <==> !q.owner.Idle?
  {
  }

  lemma {:induction false} TakingKeeps(s: State, k: nat, q: D.State)
    requires Inv(s) && k < |s.ws| && s.ws[k].Taking? && D.Inv(q) && q.thieves == s.qs[k].thieves
    requires Answers(s.qs[k], q, if q.owner.Idle? then Some(Answered(q)) else None)
    requires if q.owner.Idle? then Answered(q).Got? || Answered(q).Empty? else InTake(q.owner)
    ensures Inv(AfterTake(s, k, q))
  {
    var s' := AfterTake(s, k, q);
    var r := if q.owner.Idle? then Some(Answered(q)) else None;
    TakingOn(s, s', k, q);
    OwnQueue(s, s', k, r);
    OnDequeKeeps(s, s', k, k, r);
  }

  lemma {:induction false} TakingStep(s: State, k: nat, q: D.State)
    requires Inv(s) && k < |s.ws| && s.ws[k].Taking? && q == D.Next(s.qs[k], D.OwnerMove)
    ensures Inv(AfterTake(s, k, q))
  {
    assert QueueOk(s, k) && D.Inv(s.qs[k]);
    OwnerShape(s.qs[k]);
    OwnerAnswers(s.qs[k], q);
    TakingKeeps(s, k, q);
  }

  lemma {:induction false} StartStealStep(s: State, k: nat)
    requires Inv(s) && k < |s.ws| && s.ws[k].Scan? && s.ws[k].i < |s.qs| && s.ws[k].i != k
    ensures Inv(Next(s, k))
  {
    var s', i := Next(s, k), s.ws[k].i;
    assert QueueOk(s, i);
    StealShape(s.qs[i], k);
    R.StepKeeps(s.qs[i], D.StartSteal(k));
    OtherQueue(s, s', k, i, None);
    OnDequeKeeps(s, s', k, i, None);
  }

  lemma {:induction false} StealShape(q: D.State, k: nat)
    requires k < |q.thieves| && q.thieves[k].Away?
    ensures var q' := D.Next(q, D.StartSteal(k));
      && Answers(q, q', None) && q'.owner == q.owner
      && |q'.thieves| == |q.thieves| && q'.thieves == q.thieves[k := q'.thieves[k]] && !q'.thieves[k].Away?
  {
  }

  /** What a worker does after thief step `q` on deque `i`. */
  function AfterSteal(s: State, k: nat, i: nat, q: D.State): State
    requires k < |s.ws| && i < |s.qs|
  {
    var w := if k < |q.thieves| && q.thieves[k].Away? then Received(i, Answered(q), Scan(i + 1), Scan(i)) else Stealing(i);
    At(s, k, w).(qs := s.qs[i := q])
  }

  lemma {:induction false} StealingOn(s: State, s': State, k: nat, i: nat, q: D.State)
    requires Sized(s) && k < |s.ws| && s.ws[k] == Stealing(i) && i < |s.qs| && k < |s.qs[i].thieves| == |q.thieves| && i != k
    requires Answers(s.qs[i], q, if q.thieves[k].Away? then Some(Answered(q)) else None) && s' == AfterSteal(s, k, i, q)
    ensures OnDeque(s, s', k, i, if q.thieves[k].Away? then Some(Answered(q)) else None) && WorkerOk(s'.ws[k], k, |s.qs|)
  {
  }

  lemma {:induction false} StealingStep(s: State, s': State, k: nat, i: nat)
    requires Inv(s) && k < |s.ws| && s.ws[k] == Stealing(i) && i < |s.qs|
    requires s' == AfterSteal(s, k, i, D.Next(s.qs[i], D.ThiefMove(k)))
    ensures Inv(s')
  {
    assert QueueOk(s, i) && WorkerOk(s.ws[k], k, |s.qs|) && D.Inv(s.qs[i]);
    var q := D.Next(s.qs[i], D.ThiefMove(k));
    ThiefShape(s.qs[i], k);
    ThiefAnswers(s.qs[i], q, k);
    StealingKeeps(s, k, i, q);
  }

  lemma {:induction false} StealingKeeps(s: State, k: nat, i: nat, q: D.State)
    requires Inv(s) && k < |s.ws| && s.ws[k] == Stealing(i) && i < |s.qs| && i != k && D.Inv(q)
    requires k < |s.qs[i].thieves| == |q.thieves| && q.owner == s.qs[i].owner && q.thieves == s.qs[i].thieves[k := q.thieves[k]]
    requires Answers(s.qs[i], q, if q.thieves[k].Away? then Some(Answered(q)) else None)
    ensures Inv(AfterSteal(s, k, i, q))
  {
    var s' := AfterSteal(s, k, i, q);
    var r := if q.thieves[k].Away? then Some(Answered(q)) else None;
    assert QueueOk(s, i);
    StealingOn(s, s', k, i, q);
    OtherQueue(s, s', k, i, r);
    OnDequeKeeps(s, s', k, i, r);
  }

  /** Steps that touch no deque. */
  lemma {:induction false} OffDeque(s: State, s': State, k: nat)
    requires Sized(s) && k < |s.ws| == |s'.ws|
    requires s' == s.(ws := s.ws[k := s'.ws[k]], joinCount := s'.joinCount, done := s'.done,
                      ran := s'.ran, joined := s'.joined, dones := s'.dones)
    requires !s.ws[k].Taking? && !s.ws[k].Stealing? && !s'.ws[k].Taking? && !s'.ws[k].Stealing?
    requires forall j :: 0 <= j < |s.qs| ==> QueueOk(s, j)
    ensures forall j :: 0 <= j < |s.qs| ==> QueueOk(s', j)
  {
    forall j | 0 <= j < |s.qs| ensures QueueOk(s', j) {
      assert QueueOk(s, j);
    }
  }

  lemma {:induction false} OffKeeps(s: State, s': State, k: nat)
    requires Inv(s) && k < |s.ws| == |s'.ws| && |s'.ran| == |s.ran| && WorkerOk(s'.ws[k], k, |s.qs|)
    requires s' == s.(ws := s.ws[k := s'.ws[k]], joinCount := s'.joinCount, done := s'.done,
                      ran := s'.ran, joined := s'.joined, dones := s'.dones)
    requires !s.ws[k].Taking? && !s.ws[k].Stealing? && !s'.ws[k].Taking? && !s'.ws[k].Stealing?
    requires Joined(s') && forall j :: 0 <= j < |s.qs| ==> Accounted(s', j)
    ensures Inv(s')
  {
    OffDeque(s, s', k);
    assert Sized(s');
  }

  lemma {:induction false} PrintAccounted(s: State, s': State, k: nat, i: nat, y: D.Item, j: nat, x: D.Item)
    requires |s.qs| == |s.ran| == |s.ws| && k < |s.ws| && s.ws[k] == Print(i, y) && i < |s.qs| && j < |s.qs|
    requires s' == At(s, k, Join).(ran := s.ran[i := s.ran[i] + multiset{y}]) && AccountedAt(s, j, x)
    ensures AccountedAt(s', j, x)
  {
    InHandUpdate(s.ws, k, Join, j, x);
  }

  lemma {:induction false} PrintAll(s: State, s': State, k: nat, i: nat, y: D.Item)
    requires |s.qs| == |s.ran| == |s.ws| && k < |s.ws| && s.ws[k] == Print(i, y) && i < |s.qs|
    requires s' == At(s, k, Join).(ran := s.ran[i := s.ran[i] + multiset{y}])
    requires forall j :: 0 <= j < |s.qs| ==> Accounted(s, j)
    ensures forall j :: 0 <= j < |s.qs| ==> Accounted(s', j)
  {
    forall j | 0 <= j < |s.qs| ensures Accounted(s', j) {
      forall x: D.Item ensures AccountedAt(s', j, x) {
        assert Accounted(s, j) && AccountedAt(s, j, x);
        PrintAccounted(s, s', k, i, y, j, x);
      }
    }
  }

  lemma {:induction false} PrintStep(s: State, s': State, k: nat, i: nat, y: D.Item)
    requires Inv(s) && k < |s.ws| && s.ws[k] == Print(i, y) && i < |s.qs|
    requires s' == At(s, k, Join).(ran := s.ran[i := s.ran[i] + multiset{y}])
    ensures Inv(s')
  {
    PrintAll(s, s', k, i, y);
    PrintJoined(s, s', k, i, y);
    OffKeeps(s, s', k);
  }

  lemma {:induction false} PrintJoined(s: State, s': State, k: nat, i: nat, y: D.Item)
    requires |s.qs| == |s.ran| == |s.ws| && k < |s.ws| && s.ws[k] == Print(i, y) && i < |s.qs| && Joined(s)
    requires s' == At(s, k, Join).(ran := s.ran[i := s.ran[i] + multiset{y}])
    ensures Joined(s')
  {
    CountUpdate(s.ws, k, Join, Joins);
    CountUpdate(s.ws, k, Join, Lasts);
    RunCountUpdate(s.ran, i, s.ran[i] + multiset{y});
  }

  /** A worker that neither gets nor gives away a task. */
  lemma {:induction false} HandsSame(s: State, s': State, k: nat)
    requires |s.qs| == |s.ran| && k < |s.ws| == |s'.ws| && s'.qs == s.qs && s'.ran == s.ran
    requires s'.ws == s.ws[k := s'.ws[k]] && !s.ws[k].Print? && !s'.ws[k].Print?
    requires forall j :: 0 <= j < |s.qs| ==> Accounted(s, j)
    ensures forall j :: 0 <= j < |s.qs| ==> Accounted(s', j)
  {
    forall j | 0 <= j < |s.qs| ensures Accounted(s', j) {
      forall x: D.Item ensures AccountedAt(s', j, x) {
        assert Accounted(s, j) && AccountedAt(s, j, x);
        InHandUpdate(s.ws, k, s'.ws[k], j, x);
      }
    }
  }

  /** The join that finds the count at 1 is the last one, and there is one. */
  lemma {:induction false} JoinJoined(s: State, k: nat)
    requires |s.qs| == |s.ran| == |s.ws| && k < |s.ws| && s.ws[k].Join? && Joined(s) && RunCount(s.ran) <= Total(s.qs)
    ensures Joined(Next(s, k)) && s.joinCount >= 1
  {
    CountSome(s.ws, k, Joins);
    CountUpdate(s.ws, k, Next(s, k).ws[k], Joins);
    CountUpdate(s.ws, k, Next(s, k).ws[k], Lasts);
  }

  /** The worker that joins last goes on to the task that sets `done`. */
  function Joining(s: State, k: nat): State
    requires k < |s.ws|
  {
    At(s, k, if s.joinCount == 1 then Last else Loop).(joinCount := s.joinCount - 1, joined := s.joined + 1)
  }

  lemma {:induction false} NextJoin(s: State, k: nat)
    requires |s.ws| == |s.qs| == |s.ran| && k < |s.ws| && s.ws[k].Join?
    ensures Next(s, k) == Joining(s, k)
  {
  }

  lemma {:induction false} RanEnough(s: State)
    requires Inv(s)
    ensures RunCount(s.ran) <= Total(s.qs)
  {
    EachRan(s);
    AllRan(s);
  }

  lemma {:induction false} JoinStep(s: State, s': State, k: nat)
    requires Inv(s) && k < |s.ws| && s.ws[k].Join? && RunCount(s.ran) <= Total(s.qs) && s' == Joining(s, k)
    ensures Inv(s')
  {
    NextJoin(s, k);
    JoinJoined(s, k);
    HandsSame(s, s', k);
    OffKeeps(s, s', k);
  }

  lemma {:induction false} LastJoined(s: State, k: nat)
    requires |s.qs| == |s.ran| == |s.ws| && k < |s.ws| && s.ws[k].Last? && Joined(s)
    ensures Joined(Next(s, k))
  {
    CountSome(s.ws, k, Lasts);
    CountUpdate(s.ws, k, Loop, Joins);
    CountUpdate(s.ws, k, Loop, Lasts);
  }

  lemma {:induction false} LastStep(s: State, s': State, k: nat)
    requires Inv(s) && k < |s.ws| && s.ws[k].Last? && s' == At(s, k, Loop).(done := true, dones := s.dones + 1)
    ensures Inv(s')
  {
    NextLast(s, k);
    LastJoined(s, k);
    HandsSame(s, s', k);
    OffKeeps(s, s', k);
  }

  predicate Passing(s: State, k: nat) {
    k < |s.ws| && (s.ws[k].Check? || (s.ws[k].Scan? && (s.ws[k].i >= |s.qs| || s.ws[k].i == k)))
  }

  lemma {:induction false} IdleJoined(s: State, k: nat)
    requires |s.qs| == |s.ran| == |s.ws| && Passing(s, k) && Joined(s)
    ensures Joined(Next(s, k))
  {
    CountUpdate(s.ws, k, Next(s, k).ws[k], Joins);
    CountUpdate(s.ws, k, Next(s, k).ws[k], Lasts);
  }

  lemma {:induction false} IdleNext(s: State, k: nat)
    requires |s.ws| == |s.qs| == |s.ran| && Passing(s, k)
    ensures var s' := Next(s, k);
      && s' == s.(ws := s.ws[k := s'.ws[k]]) && (s'.ws[k].Check? || s'.ws[k].Loop? || s'.ws[k].Scan? || s'.ws[k].Exited?)
  {
  }

  lemma {:induction false} IdleStep(s: State, k: nat)
    requires Inv(s) && Passing(s, k)
    ensures Inv(Next(s, k))
  {
    IdleNext(s, k);
    HandsSame(s, Next(s, k), k);
    IdleJoined(s, k);
    OffKeeps(s, Next(s, k), k);
  }

  lemma {:induction false} NextTake(s: State, k: nat)
    requires |s.ws| == |s.qs| == |s.ran| && k < |s.ws| && s.ws[k].Taking?
    ensures Next(s, k) == AfterTake(s, k, D.Next(s.qs[k], D.OwnerMove))
  {
  }

  lemma {:induction false} NextLast(s: State, k: nat)
    requires |s.ws| == |s.qs| == |s.ran| && k < |s.ws| && s.ws[k].Last?
    ensures Next(s, k) == At(s, k, Loop).(done := true, dones := s.dones + 1)
  {
  }

  lemma {:induction false} NextSteal(s: State, k: nat, i: nat)
    requires |s.ws| == |s.qs| == |s.ran| && k < |s.ws| && s.ws[k] == Stealing(i) && i < |s.qs|
    ensures Next(s, k) == AfterSteal(s, k, i, D.Next(s.qs[i], D.ThiefMove(k)))
  {
  }

  lemma {:induction false} NextPrint(s: State, k: nat, i: nat, y: D.Item)
    requires |s.ws| == |s.qs| == |s.ran| && k < |s.ws| && s.ws[k] == Print(i, y) && i < |s.qs|
    ensures Next(s, k) == At(s, k, Join).(ran := s.ran[i := s.ran[i] + multiset{y}])
  {
  }

  lemma {:induction false} StepKeeps(s: State, s': State, k: nat)
    requires Inv(s) && k < |s.ws| && s' == Next(s, k)
    ensures Inv(s')
  {
    assert WorkerOk(s.ws[k], k, |s.qs|);
    match s.ws[k]
    case Loop => LoopStep(s, k);
    case Taking =>
      NextTake(s, k);
      TakingStep(s, k, D.Next(s.qs[k], D.OwnerMove));
    case Scan(i) => if i < |s.qs| && i != k { StartStealStep(s, k); } else { IdleStep(s, k); }
    case Stealing(i) =>
      NextSteal(s, k, i);
      StealingStep(s, s', k, i);
    case Print(i, y) =>
      NextPrint(s, k, i, y);
      PrintStep(s, s', k, i, y);
    case Join =>
      NextJoin(s, k);
      RanEnough(s);
      JoinStep(s, s', k);
    case Last =>
      NextLast(s, k);
      LastStep(s, s', k);
    case Check => IdleStep(s, k);
    case _ =>
  }

  /** A state the workers may reach from the deques `qs`. */
  ghost predicate From(qs: seq<D.State>, s: State) {
    Inv(s) && |s.qs| == |qs| && forall j :: 0 <= j < |qs| ==> s.qs[j].pushed == qs[j].pushed
  }

  lemma {:induction false} StepPushed(s: State, k: nat, j: nat)
    requires Sized(s) && k < |s.ws| && j < |s.qs| && forall l :: 0 <= l < |s.qs| ==> QueueOk(s, l) && D.OwnerOk(s.qs[l])
    ensures Next(s, k).qs[j].pushed == s.qs[j].pushed
  {
    assert QueueOk(s, k) && WorkerOk(s.ws[k], k, |s.qs|);
    match s.ws[k]
    case Loop => TakeShape(s.qs[k]);
    case Taking => OwnerShape(s.qs[k]);
    case Scan(i) => if i < |s.qs| && i != k { assert QueueOk(s, i); StealShape(s.qs[i], k); }
    case Stealing(i) => assert QueueOk(s, i); ThiefShape(s.qs[i], k);
    case _ =>
  }

  lemma {:induction false} InvPushed(s: State, k: nat, j: nat)
    requires Inv(s) && k < |s.ws| && j < |s.qs|
    ensures Next(s, k).qs[j].pushed == s.qs[j].pushed
  {
    forall l | 0 <= l < |s.qs| ensures QueueOk(s, l) && D.OwnerOk(s.qs[l]) {
      assert D.Inv(s.qs[l]);
    }
    StepPushed(s, k, j);
  }

  lemma {:induction false} FromStep(qs: seq<D.State>, s: State, s': State, k: nat)
    requires From(qs, s) && k < |s.ws| && s' == Next(s, k)
    ensures From(qs, s')
  {
    StepKeeps(s, s', k);
    forall j | 0 <= j < |qs| ensures s'.qs[j].pushed == qs[j].pushed {
      InvPushed(s, k, j);
    }
  }

  lemma {:induction false} RunFrom(qs: seq<D.State>, steps: seq<nat>)
    requires forall j :: 0 <= j < |qs| ==> Filled(qs[j], |qs|)
    ensures From(qs, Run(Init(qs), steps))
    decreases |steps|
  {
    if steps == [] {
      InitKeeps(qs);
    } else {
      var s, k := Run(Init(qs), steps[..|steps| - 1]), steps[|steps| - 1];
      RunFrom(qs, steps[..|steps| - 1]);
      if k < |s.ws| {
        FromStep(qs, s, Next(s, k), k);
      }
    }
  }

  /** In every run of any number of workers on deques the main thread has filled: no print task of a deque
      has run more often than it was pushed, `done_task` has run at most once, and once `done` is set it
      has run and every print task has, so that none is left in a deque or in anybody's hands. A worker
      leaves its loop only after that. */
  lemma {:induction false} DoneIsDone(qs: seq<D.State>, steps: seq<nat>, j: nat, k: nat)
    requires forall l :: 0 <= l < |qs| ==> Filled(qs[l], |qs|)
    requires j < |qs| && k < |qs|
    ensures var s := Run(Init(qs), steps);
      && s.ran[j] <= multiset(s.qs[j].pushed) && s.dones <= 1
      && (s.done ==> s.dones == 1 && s.ran[j] == multiset(s.qs[j].pushed))
      && (s.ws[k].Exited? ==> s.done) && s.ws[k] != Lost
      && s.qs[j].pushed == qs[j].pushed
  {
    var s := Run(Init(qs), steps);
    RunFrom(qs, steps);
    assert WorkerOk(s.ws[k], k, |s.qs|);
    RanOk(s, j);
    EachRan(s);
    AllRan(s);
  }

  // ----- nothing is lost either

  /** Nothing is in the deque, and nothing is claimed. */
  ghost predicate Emptied(q: D.State) {
    D.BooksOf(q).flying == [] && D.BooksOf(q).rest == []
  }

  predicate Handless(w: Worker) {
    !w.Print? && !w.Join? && !w.Last?
  }

  ghost predicate Finished(s: State) {
    && (forall j :: 0 <= j < |s.qs| ==> Emptied(s.qs[j]))
    && (forall k :: 0 <= k < |s.ws| ==> Handless(s.ws[k]))
  }

  lemma {:induction false} CountNone(ws: seq<Worker>, f: Worker -> bool)
    requires forall k :: 0 <= k < |ws| ==> !f(ws[k])
    ensures Count(ws, f) == 0
  {
    if ws != [] { CountNone(ws[..|ws| - 1], f); }
  }

  lemma {:induction false} InHandNone(ws: seq<Worker>, j: nat, x: D.Item)
    requires forall k :: 0 <= k < |ws| ==> !ws[k].Print?
    ensures InHand(ws, j, x) == 0
  {
    if ws != [] { InHandNone(ws[..|ws| - 1], j, x); }
  }

  lemma {:induction false} InHandSome(ws: seq<Worker>, k: nat)
    requires k < |ws| && ws[k].Print?
    ensures InHand(ws, ws[k].j, ws[k].x) >= 1
  {
    if k < |ws| - 1 { InHandSome(ws[..|ws| - 1], k); }
  }

  lemma {:induction false} RunAll(s: State, n: nat)
    requires n <= |s.qs| == |s.ran| && forall j :: 0 <= j < n ==> |s.ran[j]| == |s.qs[j].pushed|
    ensures RunCount(s.ran[..n]) == Total(s.qs[..n])
  {
    if n > 0 {
      RunAll(s, n - 1);
      assert s.ran[..n][..n - 1] == s.ran[..n - 1] && s.qs[..n][..n - 1] == s.qs[..n - 1];
    }
  }

  /** Whose deque is empty has given out all that was pushed. */
  lemma {:induction false} EmptiedAnswers(q: D.State)
    requires D.Conserved(D.BooksOf(q))
    ensures Emptied(q) <==> multiset(D.Items(q.out)) == multiset(q.pushed)
  {
    var b := D.BooksOf(q);
    assert multiset(b.pushed) == multiset(D.Items(b.out)) + (multiset(b.flying) + multiset(b.rest));
    if multiset(D.Items(q.out)) == multiset(q.pushed) {
      assert |multiset(b.flying)| == |b.flying| && |multiset(b.rest)| == |b.rest|;
    }
  }

  lemma {:induction false} FinishedRan(s: State, j: nat)
    requires Inv(s) && Finished(s) && j < |s.qs|
    ensures s.ran[j] == multiset(s.qs[j].pushed)
  {
    assert D.Inv(s.qs[j]) && Accounted(s, j) && Emptied(s.qs[j]);
    EmptiedAnswers(s.qs[j]);
    forall x: D.Item ensures s.ran[j][x] == multiset(s.qs[j].pushed)[x] {
      assert AccountedAt(s, j, x);
      forall k | 0 <= k < |s.ws| ensures !s.ws[k].Print? { assert Handless(s.ws[k]); }
      InHandNone(s.ws, j, x);
    }
  }

  lemma {:induction false} FinishedAll(s: State)
    requires Inv(s) && Finished(s)
    ensures forall j :: 0 <= j < |s.qs| ==> |s.ran[j]| == |s.qs[j].pushed|
  {
    forall j | 0 <= j < |s.qs| ensures |s.ran[j]| == |s.qs[j].pushed| {
      FinishedRan(s, j);
    }
  }

  lemma {:induction false} FinishedCount(s: State)
    requires |s.qs| == |s.ran| && forall j :: 0 <= j < |s.qs| ==> |s.ran[j]| == |s.qs[j].pushed|
    ensures RunCount(s.ran) == Total(s.qs)
  {
    RunAll(s, |s.qs|);
    assert s.ran[..|s.qs|] == s.ran && s.qs[..|s.qs|] == s.qs;
  }

  lemma {:induction false} NoneUnderWay(ws: seq<Worker>)
    requires forall k :: 0 <= k < |ws| ==> Handless(ws[k])
    ensures Count(ws, Joins) == 0 && Count(ws, Lasts) == 0
  {
    CountNone(ws, Joins);
    CountNone(ws, Lasts);
  }

  lemma {:induction false} SomePushed(qs: seq<D.State>)
    requires DequesOk(qs) && qs != []
    ensures Total(qs) > 0
  {
    assert qs[|qs| - 1].pushed != [];
  }

  lemma {:induction false} FinishedDone(s: State)
    requires Inv(s) && Finished(s) && s.qs != []
    ensures s.done && s.dones == 1
  {
    FinishedAll(s);
    FinishedCount(s);
    NoneUnderWay(s.ws);
    SomePushed(s.qs);
  }

  lemma {:induction false} DoneRan(s: State)
    requires Inv(s) && s.done
    ensures Count(s.ws, Joins) == 0 && Count(s.ws, Lasts) == 0
    ensures forall j :: 0 <= j < |s.qs| ==> s.ran[j] == multiset(s.qs[j].pushed)
  {
    EachRan(s);
    AllRan(s);
    forall j | 0 <= j < |s.qs| ensures s.ran[j] == multiset(s.qs[j].pushed) { RanOk(s, j); }
  }

  lemma {:induction false} DoneEmptied(s: State, j: nat)
    requires Inv(s) && j < |s.qs| && s.ran[j] == multiset(s.qs[j].pushed)
    ensures Emptied(s.qs[j]) && forall x :: InHand(s.ws, j, x) == 0
  {
    var out, pushed := multiset(D.Items(s.qs[j].out)), multiset(s.qs[j].pushed);
    assert D.Inv(s.qs[j]) && Accounted(s, j);
    ItemsPushed(s.qs[j]);
    forall x ensures InHand(s.ws, j, x) == 0 && out[x] == pushed[x] { assert AccountedAt(s, j, x); }
    assert out == pushed;
    EmptiedAnswers(s.qs[j]);
  }

  lemma {:induction false} DoneFinished(s: State)
    requires Inv(s) && s.done
    ensures Finished(s)
  {
    DoneRan(s);
    forall j | 0 <= j < |s.qs| ensures Emptied(s.qs[j]) { DoneEmptied(s, j); }
    forall k | 0 <= k < |s.ws| ensures Handless(s.ws[k]) {
      var w := s.ws[k];
      assert WorkerOk(w, k, |s.qs|);
      if w.Print? {
        InHandSome(s.ws, k);
        DoneEmptied(s, w.j);
      } else if w.Join? {
        CountSome(s.ws, k, Joins);
      } else if w.Last? {
        CountSome(s.ws, k, Lasts);
      }
    }
  }

  /** In every run `done` is set exactly when nothing is left anywhere: in no deque, claimed by nobody, in
      nobody's hands, and no join or `done_task` under way. So no task and no join is ever lost. */
  lemma {:induction false} NothingLost(qs: seq<D.State>, steps: seq<nat>)
    requires qs != [] && forall l :: 0 <= l < |qs| ==> Filled(qs[l], |qs|)
    ensures var s := Run(Init(qs), steps); (s.done <==> Finished(s)) && (Finished(s) ==> s.dones == 1)
  {
    var s := Run(Init(qs), steps);
    RunFrom(qs, steps);
    if Finished(s) { FinishedDone(s); }
    if s.done { DoneFinished(s); }
  }
}
