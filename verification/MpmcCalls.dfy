/** What `mpmc_enqueue` and `mpmc_dequeue` do for their caller, from the call to the return, whatever the other
    threads do meanwhile. */
module MpmcCalls {
  import opened Options
  import opened MpmcSync
  import opened Mpmc
  import opened MpmcMemory
  import opened MpmcRuns
  import opened Traces

  function PcOf(s: State, k: nat): Pc {
    if k < |s.y.pcs| then s.y.pcs[k] else Idle
  }

  /** Thread `k` has registered in this role and is in no call. */
  predicate Waits(s: State, k: nat, role: Role) {
    k < |s.m.ts| == |s.y.pcs| == |s.y.flag| && s.m.ts[k].role == role && s.m.ts[k].reg == Ready && s.y.pcs[k] == Idle
  }

  /** It is in a call in state `s`; the run goes on through `tr`, and up to state `c` of it the call has not returned. */
  ghost predicate Within(s: State, k: nat, more: seq<Step>, tr: seq<State>, c: nat) {
    Trace(Take, s, more, tr) && c <= |more| && forall b :: 0 <= b < c ==> PcOf(tr[b], k) != Idle
  }

  /** It makes the call `start` in state `s`, and returns with the last of the states `tr`. */
  ghost predicate Returns(s: State, start: Step, more: seq<Step>, tr: seq<State>) {
    Within(Take(s, start), start.k, more, tr, |more|) && PcOf(tr[|more|], start.k) == Idle
  }

  /** Some run of some queue leads to this state. */
  ghost predicate Reached(s: State) {
    exists bits, threshold, roles, steps :: s == Run(Init(bits, threshold, roles), steps)
  }

  lemma {:induction false} ReachedStep(s: State, step: Step)
    requires Reached(s)
    ensures Reached(Take(s, step))
  {
    var bits, threshold, roles, steps :| s == Run(Init(bits, threshold, roles), steps);
    assert (steps + [step])[..|steps|] == steps;
    assert Take(s, step) == Run(Init(bits, threshold, roles), steps + [step]);
  }

  lemma {:induction false} ReachedInv(s: State)
    requires Reached(s)
    ensures Inv(s)
  {
    var bits, threshold, roles, steps :| s == Run(Init(bits, threshold, roles), steps);
    InitKeeps(bits, threshold, roles);
    RunKeeps(Init(bits, threshold, roles), steps);
  }

  lemma {:induction false} TraceReached(s: State, more: seq<Step>, tr: seq<State>, c: nat)
    requires Reached(s) && Trace(Take, s, more, tr) && c <= |more|
    ensures Reached(tr[c])
  {
    if c > 0 {
      TraceReached(s, more, tr, c - 1);
      assert Follows(Take, tr, more, c - 1);
      ReachedStep(tr[c - 1], more[c - 1]);
    }
  }

  // ----- what is recorded stays

  lemma {:induction false} RecordsKept(s: State, step: Step, t: nat, v: int)
    requires t in s.y.vals && s.y.vals[t] == v && t < s.y.put
    ensures var y := Take(s, step).y; t in y.vals && y.vals[t] == v && t < y.put
  {
  }

  lemma {:induction false} SentKept(s: State, step: Step, t: nat)
    requires t in s.y.sent
    ensures t in Take(s, step).y.sent
  {
  }

  lemma {:induction false} TraceRecords(s: State, more: seq<Step>, tr: seq<State>, c: nat, t: nat, v: int)
    requires t in s.y.vals && s.y.vals[t] == v && t < s.y.put && Trace(Take, s, more, tr) && c <= |more|
    ensures t in tr[c].y.vals && tr[c].y.vals[t] == v && t < tr[c].y.put
  {
    if c > 0 {
      TraceRecords(s, more, tr, c - 1, t, v);
      assert Follows(Take, tr, more, c - 1);
      RecordsKept(tr[c - 1], more[c - 1], t, v);
    }
  }

  // ----- mpmc_enqueue

  predicate Puts(p: Pc) {
    p.Put? || p.Clear? || p.Wake?
  }

  /** Enqueuer `k` has ticket `t`, and has reached its cell unless it is still to exchange its value in. */
  ghost predicate Putting(s: State, k: nat, t: nat) {
    var p := PcOf(s, k); Puts(p) && p.t == t && (p.Put? || t in s.y.sent)
  }

  /** Other threads only wake a thread that is in a call. */
  lemma {:induction false} OthersStep(s: State, step: Step, k: nat)
    requires PcOf(s, k) != Idle && !(step.Go? && step.k == k)
    ensures var p, p' := PcOf(s, k), PcOf(Take(s, step), k); p' == p || (p.Asleep? && p' == Check(p.t))
  {
  }

  lemma {:induction false} OwnPut(s: State, k: nat, t: nat, patient: bool)
    requires Putting(s, k, t)
    ensures var s' := Take(s, Go(k, patient));
      Putting(s', k, t) || PcOf(s', k) == Wild || (PcOf(s', k) == Idle && t in s'.y.sent)
  {
  }

  lemma {:induction false} PuttingStep(s: State, s': State, step: Step, k: nat, t: nat)
    requires (Putting(s, k, t) || PcOf(s, k) == Wild) && s' == Take(s, step)
    ensures Putting(s', k, t) || PcOf(s', k) == Wild || (Putting(s, k, t) && PcOf(s', k) == Idle && t in s'.y.sent)
  {
    if !(step.Go? && step.k == k) {
      OthersStep(s, step, k);
      if t in s.y.sent { SentKept(s, step, t); }
    } else if Putting(s, k, t) {
      OwnPut(s, k, t, step.patient);
    }
  }

  lemma {:induction false} NotWild(s: State, k: nat)
    requires Reached(s)
    ensures PcOf(s, k) != Wild
  {
    ReachedInv(s);
    if k < |s.y.pcs| {
      assert PcOk(s.y, Cells(s.m), k);
    }
  }

  lemma {:induction false} PutStarts(s: State, k: nat, v: int)
    requires Waits(s, k, Enqueuer)
    ensures var s' := Take(s, StartEnqueue(k, v));
      Putting(s', k, s.y.put) && s'.y.put == s.y.put + 1 && s.y.put in s'.y.vals && s'.y.vals[s.y.put] == v
  {
  }

  lemma {:induction false} PutTrack(s: State, k: nat, t: nat, more: seq<Step>, tr: seq<State>, c: nat)
    requires Putting(s, k, t) && Within(s, k, more, tr, c) && PcOf(tr[c], k) != Idle
    ensures Putting(tr[c], k, t) || PcOf(tr[c], k) == Wild
  {
    if c > 0 {
      PutTrack(s, k, t, more, tr, c - 1);
      assert Follows(Take, tr, more, c - 1);
      PuttingStep(tr[c - 1], tr[c], more[c - 1], k, t);
    }
  }

  lemma {:induction false} PutEnds(s: State, k: nat, t: nat, more: seq<Step>, tr: seq<State>)
    requires Reached(s) && Putting(s, k, t) && Within(s, k, more, tr, |more|) && PcOf(tr[|more|], k) == Idle
    ensures t in tr[|more|].y.sent
  {
    var c := |more| - 1;
    PutTrack(s, k, t, more, tr, c);
    TraceReached(s, more, tr, c);
    NotWild(tr[c], k);
    assert Follows(Take, tr, more, c);
    PuttingStep(tr[c], tr[c + 1], more[c], k, t);
  }

  /** An enqueue that draws ticket `t` stores what its caller gave it: from the call on, in every state, the dequeue
      with ticket `t` has returned nothing or `v`, or has `v` in hand. When the enqueue has returned its value has reached the cell. */
  lemma {:induction false} EnqueueStores(bits: nat, threshold: int, roles: seq<Role>, steps: seq<Step>, k: nat, v: int,
                                         more: seq<Step>, tr: seq<State>, d: nat)
    requires Waits(Run(Init(bits, threshold, roles), steps), k, Enqueuer)
    requires Trace(Take, Take(Run(Init(bits, threshold, roles), steps), StartEnqueue(k, v)), more, tr)
    ensures var t, r := Run(Init(bits, threshold, roles), steps).y.put, tr[|more|];
      && r.y.put > t && t in r.y.vals && r.y.vals[t] == v
      && (t in r.y.got ==> r.y.got[t] == Val(v))
      && (PcOf(r, d).Have? && PcOf(r, d).t == t ==> PcOf(r, d).c == Val(v))
      && (Returns(Run(Init(bits, threshold, roles), steps), StartEnqueue(k, v), more, tr) ==> t in r.y.sent)
  {
    var s, t, r := Run(Init(bits, threshold, roles), steps), Run(Init(bits, threshold, roles), steps).y.put, tr[|more|];
    assert Reached(s);
    ReachedStep(s, StartEnqueue(k, v));
    PutStarts(s, k, v);
    TraceReached(tr[0], more, tr, |more|);
    TraceRecords(tr[0], more, tr, |more|, t, v);
    InHand(r, d);
    if Returns(s, StartEnqueue(k, v), more, tr) {
      PutEnds(tr[0], k, t, more, tr);
    }
  }

  /** What a dequeuer has in hand, and what has been returned, is what was enqueued with the ticket. */
  lemma {:induction false} InHand(r: State, d: nat)
    requires Reached(r)
    ensures PcOf(r, d).Have? ==> PcOf(r, d).t in r.y.vals && PcOf(r, d).c == Val(r.y.vals[PcOf(r, d).t])
    ensures forall t: nat :: t in r.y.got ==> t in r.y.vals && r.y.got[t] == Val(r.y.vals[t])
  {
    ReachedInv(r);
    if d < |r.y.pcs| {
      assert PcOk(r.y, Cells(r.m), d);
    }
  }

  // ----- mpmc_dequeue

  ghost predicate Getting(s: State, d: nat, t: nat) {
    Takes(PcOf(s, d)) && PcOf(s, d).t == t
  }

  lemma {:induction false} OwnGet(s: State, d: nat, t: nat, patient: bool)
    requires Getting(s, d, t)
    ensures var s' := Take(s, Go(d, patient));
      || Getting(s', d, t)
      || (PcOf(s', d) == Idle && PcOf(s, d).Have? && s'.y.got == s.y.got[t := PcOf(s, d).c])
  {
  }

  lemma {:induction false} GettingStep(s: State, s': State, step: Step, d: nat, t: nat)
    requires Getting(s, d, t) && s' == Take(s, step)
    ensures
      || Getting(s', d, t)
      || (PcOf(s', d) == Idle && PcOf(s, d).Have? && s'.y.got == s.y.got[t := PcOf(s, d).c])
  {
    if step.Go? && step.k == d {
      OwnGet(s, d, t, step.patient);
    } else {
      OthersStep(s, step, d);
    }
  }

  lemma {:induction false} GetStarts(s: State, d: nat)
    requires Waits(s, d, Dequeuer)
    ensures Getting(Take(s, StartDequeue(d)), d, s.y.pop)
  {
  }

  lemma {:induction false} GetTrack(s: State, d: nat, t: nat, more: seq<Step>, tr: seq<State>, c: nat)
    requires Getting(s, d, t) && Within(s, d, more, tr, c) && PcOf(tr[c], d) != Idle
    ensures Getting(tr[c], d, t)
  {
    if c > 0 {
      GetTrack(s, d, t, more, tr, c - 1);
      assert Follows(Take, tr, more, c - 1);
      GettingStep(tr[c - 1], tr[c], more[c - 1], d, t);
    }
  }

  lemma {:induction false} GetEnds(s: State, d: nat, t: nat, more: seq<Step>, tr: seq<State>)
    requires Reached(s) && Getting(s, d, t) && Within(s, d, more, tr, |more|) && PcOf(tr[|more|], d) == Idle
    ensures more != []
    ensures var before, r := tr[|more| - 1], tr[|more|];
      && Reached(before) && Reached(r) && PcOf(before, d).Have? && PcOf(before, d).t == t
      && r.y.got == before.y.got[t := PcOf(before, d).c]
  {
    var c := |more| - 1;
    GetTrack(s, d, t, more, tr, c);
    TraceReached(s, more, tr, c);
    TraceReached(s, more, tr, |more|);
    assert Follows(Take, tr, more, c);
    GettingStep(tr[c], tr[c + 1], more[c], d, t);
  }

  lemma {:induction false} NotYetGot(s: State, d: nat)
    requires Reached(s) && Takes(PcOf(s, d))
    ensures PcOf(s, d).t !in s.y.got && (PcOf(s, d).Have? ==> PcOf(s, d).t in s.y.sent)
  {
    ReachedInv(s);
    assert PcOk(s.y, Cells(s.m), d);
  }

  /** A dequeue that draws ticket `t` returns, with its last step and for the first time, what the enqueue with ticket `t`
      was given, and not before that enqueue has stored it. */
  lemma {:induction false} DequeueReturns(bits: nat, threshold: int, roles: seq<Role>, steps: seq<Step>, d: nat,
                                          more: seq<Step>, tr: seq<State>)
    requires Waits(Run(Init(bits, threshold, roles), steps), d, Dequeuer)
    requires Returns(Run(Init(bits, threshold, roles), steps), StartDequeue(d), more, tr)
    ensures more != []
    ensures var t, before, r := Run(Init(bits, threshold, roles), steps).y.pop, tr[|more| - 1], tr[|more|];
      && t !in before.y.got && t in r.y.got && t in r.y.vals && r.y.got[t] == Val(r.y.vals[t])
      && PcOf(before, d) == Have(t, r.y.got[t]) && t in before.y.sent
  {
    var s := Run(Init(bits, threshold, roles), steps);
    assert Reached(s);
    GetStarts(s, d);
    ReachedStep(s, StartDequeue(d));
    GetEnds(tr[0], d, s.y.pop, more, tr);
    NotYetGot(tr[|more| - 1], d);
    InHand(tr[|more|], d);
  }
}
