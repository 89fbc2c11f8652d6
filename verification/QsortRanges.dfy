/** The parallel sort: the ranges pending in all workers are disjoint, and all that separates the array
    from being sorted lies inside them. */
module QsortRanges {
  import opened Options
  import opened Ordering
  import opened Quicksort
  import opened QsortPool
  import opened QsortPoolSafe

  // ----- families of ranges

  predicate Within(r: Range, i: int) {
    r.lo <= i < r.lo + r.n
  }

  predicate Disjoint(r: Range, q: Range) {
    r.n == 0 || q.n == 0 || r.lo + r.n <= q.lo || q.lo + q.n <= r.lo
  }

  predicate Inside(r: Range, q: Range) {
    r.n == 0 || (q.lo <= r.lo && r.lo + r.n <= q.lo + q.n)
  }

  /** One list of ranges for each worker. */
  type Family = seq<seq<Range>>

  ghost predicate Apart(g: seq<Range>, h: seq<Range>) {
    forall a, b :: 0 <= a < |g| && 0 <= b < |h| ==> Disjoint(g[a], h[b])
  }

  ghost predicate SelfApart(h: seq<Range>) {
    forall a, b :: 0 <= a < b < |h| ==> Disjoint(h[a], h[b])
  }

  ghost predicate AllApart(hs: Family) {
    && (forall k :: 0 <= k < |hs| ==> SelfApart(hs[k]))
    && (forall k, l :: 0 <= k < |hs| && 0 <= l < |hs| && k != l ==> Apart(hs[k], hs[l]))
  }

  ghost predicate Bounded(hs: Family, size: nat) {
    forall k, a :: 0 <= k < |hs| && 0 <= a < |hs[k]| ==> hs[k][a].lo + hs[k][a].n <= size
  }

  ghost predicate Covers(h: seq<Range>, i: int, j: int) {
    exists a :: 0 <= a < |h| && Within(h[a], i) && Within(h[a], j)
  }

  /** Some pending range holds both positions. */
  ghost predicate Together(hs: Family, i: int, j: int) {
    exists k :: 0 <= k < |hs| && Covers(hs[k], i, j)
  }

  /** Elements out of order are always in one pending range: sorting each of these sorts the array. */
  ghost predicate InOrder<T>(c: seq<T>, hs: Family, cmp: Comparator<T>) {
    forall i, j :: 0 <= i < j < |c| ==> cmp(c[i], c[j]) <= 0 || Together(hs, i, j)
  }

  // ----- how the family changes

  /** A worker drops ranges it has finished, or empty ones. */
  lemma {:induction false} DropApart(hs: Family, k: nat, d: nat, size: nat)
    requires AllApart(hs) && Bounded(hs, size) && k < |hs| && d <= |hs[k]|
    ensures AllApart(hs[k := hs[k][d..]]) && Bounded(hs[k := hs[k][d..]], size)
  {
    var hs' := hs[k := hs[k][d..]];
    forall l | 0 <= l < |hs| && l != k ensures Apart(hs'[k], hs'[l]) && Apart(hs'[l], hs'[k]) {
      assert Apart(hs[k], hs[l]) && Apart(hs[l], hs[k]);
    }
    assert SelfApart(hs[k]);
  }

  lemma {:induction false} DropTogether(hs: Family, k: nat, d: nat, i: int, j: int)
    requires k < |hs| && d <= |hs[k]| && Together(hs, i, j)
    requires forall a :: 0 <= a < d ==> hs[k][a].n == 0
    ensures Together(hs[k := hs[k][d..]], i, j)
  {
    var hs' := hs[k := hs[k][d..]];
    var l :| 0 <= l < |hs| && Covers(hs[l], i, j);
    if l == k {
      var a :| 0 <= a < |hs[k]| && Within(hs[k][a], i) && Within(hs[k][a], j);
      assert hs'[k][a - d] == hs[k][a];
    }
    assert Covers(hs'[l], i, j);
  }

  /** The first range of a worker is replaced by two disjoint parts of it. */
  lemma {:induction false} SplitApart(hs: Family, k: nat, cur: Range, stack: seq<Range>, l: Range, r: Range, size: nat)
    requires AllApart(hs) && Bounded(hs, size) && k < |hs| && hs[k] == [cur] + stack
    requires Inside(l, cur) && Inside(r, cur) && Disjoint(l, r) && l.lo + l.n <= size && r.lo + r.n <= size
    ensures AllApart(hs[k := [l, r] + stack]) && Bounded(hs[k := [l, r] + stack], size)
  {
    var h' := [l, r] + stack;
    var hs': Family := hs[k := h'];
    assert SelfApart(hs[k]) && hs[k][0] == cur;
    forall a | 0 <= a < |stack| ensures Disjoint(cur, stack[a]) {
      assert hs[k][a + 1] == stack[a];
    }
    forall a, b | 0 <= a < b < |stack| ensures Disjoint(stack[a], stack[b]) {
      assert hs[k][a + 1] == stack[a] && hs[k][b + 1] == stack[b];
    }
    assert SelfApart(h');
    forall m | 0 <= m < |hs| && m != k ensures Apart(h', hs[m]) && Apart(hs[m], h') {
      SplitOther(hs[k], hs[m], cur, stack, l, r);
    }
    forall m, a | 0 <= m < |hs'| && 0 <= a < |hs'[m]| ensures hs'[m][a].lo + hs'[m][a].n <= size {
      if m == k && a >= 2 {
        assert hs[k][a - 1] == hs'[k][a];
      }
    }
  }

  lemma {:induction false} SplitOther(h: seq<Range>, g: seq<Range>, cur: Range, stack: seq<Range>, l: Range, r: Range)
    requires h == [cur] + stack && Apart(h, g) && Inside(l, cur) && Inside(r, cur)
    ensures Apart([l, r] + stack, g) && Apart(g, [l, r] + stack)
  {
    assert h[0] == cur;
    forall a, b | 0 <= a < |stack| && 0 <= b < |g| ensures Disjoint(stack[a], g[b]) {
      assert h[a + 1] == stack[a];
    }
  }

  /** A worker passes its first range to one that has none. */
  lemma {:induction false} PassApart(hs: Family, k: nat, i: nat, size: nat)
    requires AllApart(hs) && Bounded(hs, size) && k < |hs| && i < |hs| && i != k && hs[i] == [] && hs[k] != []
    ensures AllApart(hs[k := hs[k][1..]][i := [hs[k][0]]]) && Bounded(hs[k := hs[k][1..]][i := [hs[k][0]]], size)
  {
    var l := hs[k][0];
    var hs' := hs[k := hs[k][1..]][i := [l]];
    assert SelfApart(hs[k]);
    forall m | 0 <= m < |hs| && m != k && m != i
      ensures Apart(hs'[k], hs[m]) && Apart(hs[m], hs'[k]) && Apart([l], hs[m]) && Apart(hs[m], [l]) {
      assert Apart(hs[k], hs[m]) && Apart(hs[m], hs[k]);
    }
    assert Apart([l], hs'[k]) && Apart(hs'[k], [l]);
  }

  lemma {:induction false} PassTogether(hs: Family, k: nat, i: nat, x: int, y: int)
    requires k < |hs| && i < |hs| && i != k && hs[i] == [] && hs[k] != [] && Together(hs, x, y)
    ensures Together(hs[k := hs[k][1..]][i := [hs[k][0]]], x, y)
  {
    var hs' := hs[k := hs[k][1..]][i := [hs[k][0]]];
    var l :| 0 <= l < |hs| && Covers(hs[l], x, y);
    if l == k {
      var a :| 0 <= a < |hs[k]| && Within(hs[k][a], x) && Within(hs[k][a], y);
      if a == 0 {
        assert hs'[i][0] == hs[k][0];
        assert Covers(hs'[i], x, y);
      } else {
        assert hs'[k][a - 1] == hs[k][a];
        assert Covers(hs'[k], x, y);
      }
    } else {
      assert Covers(hs'[l], x, y);
    }
  }

  // ----- what a worker does to the elements

  lemma {:induction false} FirstApart(hs: Family, k: nat, l: nat, a: nat)
    requires AllApart(hs) && k < |hs| && hs[k] != [] && l < |hs| && a < |hs[l]| && !(l == k && a == 0)
    ensures Disjoint(hs[k][0], hs[l][a])
  {
    if l == k {
      assert SelfApart(hs[k]);
    } else {
      assert Apart(hs[k], hs[l]);
    }
  }

  /** Only the range itself holds a position of it. */
  lemma {:induction false} OnlyHere(hs: Family, k: nat, i: int, j: int)
    requires AllApart(hs) && k < |hs| && hs[k] != [] && Together(hs, i, j) && Within(hs[k][0], i)
    ensures Within(hs[k][0], j)
  {
    var l :| 0 <= l < |hs| && Covers(hs[l], i, j);
    var a :| 0 <= a < |hs[l]| && Within(hs[l][a], i) && Within(hs[l][a], j);
    if !(l == k && a == 0) {
      FirstApart(hs, k, l, a);
    }
  }

  lemma {:induction false} CoversFirst(hs: Family, k: nat, i: int, j: int)
    requires k < |hs| && hs[k] != [] && Within(hs[k][0], i) && Within(hs[k][0], j)
    ensures Together(hs, i, j)
  {
    assert Covers(hs[k], i, j);
  }

  lemma {:induction false} RearrangedOrder<T(!new)>(c: seq<T>, t: seq<T>, hs: Family, k: nat, cur: Range, cmp: Comparator<T>)
    requires InOrder(c, hs, cmp) && AllApart(hs) && k < |hs| && hs[k] != [] && hs[k][0] == cur
    requires Shuffled(c, t, cur.lo, cur.lo + cur.n)
    ensures InOrder(t, hs, cmp)
  {
    forall i, j | 0 <= i < j < |t| ensures cmp(t[i], t[j]) <= 0 || Together(hs, i, j) {
      if Within(cur, i) && Within(cur, j) {
        CoversFirst(hs, k, i, j);
      } else {
        RearrangedPair(c, t, hs, k, cur, i, j, cmp);
      }
    }
  }

  lemma {:induction false} RearrangedPair<T(!new)>(c: seq<T>, t: seq<T>, hs: Family, k: nat, cur: Range, i: int, j: int, cmp: Comparator<T>)
    requires InOrder(c, hs, cmp) && AllApart(hs) && k < |hs| && hs[k] != [] && hs[k][0] == cur && 0 <= i < j < |t|
    requires Shuffled(c, t, cur.lo, cur.lo + cur.n)
    requires !(Within(cur, i) && Within(cur, j))
    ensures cmp(t[i], t[j]) <= 0 || Together(hs, i, j)
  {
    if Within(cur, i) {
      var i' := ShuffledFrom(c, t, cur.lo, cur.lo + cur.n, i);
      if Together(hs, i', j) { OnlyHere(hs, k, i', j); }
    } else if Within(cur, j) {
      var j' := ShuffledFrom(c, t, cur.lo, cur.lo + cur.n, j);
      if Together(hs, i, j') {
        TogetherSym(hs, i, j');
        OnlyHere(hs, k, j', i);
      }
    }
  }

  lemma {:induction false} TogetherSym(hs: Family, i: int, j: int)
    requires Together(hs, i, j)
    ensures Together(hs, j, i)
  {
    var l :| 0 <= l < |hs| && Covers(hs[l], i, j);
    assert Covers(hs[l], j, i);
  }

  /** Positions that some other range holds together stay so. */
  lemma {:induction false} KeptTogether(hs: Family, k: nat, front: seq<Range>, i: int, j: int)
    requires k < |hs| && hs[k] != [] && Together(hs, i, j) && !(Within(hs[k][0], i) && Within(hs[k][0], j))
    ensures Together(hs[k := front + hs[k][1..]], i, j)
  {
    var hs' := hs[k := front + hs[k][1..]];
    var l :| 0 <= l < |hs| && Covers(hs[l], i, j);
    if l == k {
      var a :| 0 <= a < |hs[k]| && Within(hs[k][a], i) && Within(hs[k][a], j);
      assert hs'[k][|front| + a - 1] == hs[k][a];
    }
    assert Covers(hs'[l], i, j);
  }

  /** After a range has been sorted nothing is out of order in it. */
  lemma {:induction false} SortedOrder<T(!new)>(c: seq<T>, hs: Family, k: nat, cmp: Comparator<T>)
    requires InOrder(c, hs, cmp) && k < |hs| && hs[k] != [] && hs[k][0].lo + hs[k][0].n <= |c|
    requires Sorted(c, hs[k][0].lo, hs[k][0].lo + hs[k][0].n, cmp)
    ensures InOrder(c, hs[k := hs[k][1..]], cmp)
  {
    var cur, hs' := hs[k][0], hs[k := hs[k][1..]];
    assert [] + hs[k][1..] == hs[k][1..];
    forall i, j | 0 <= i < j < |c| ensures cmp(c[i], c[j]) <= 0 || Together(hs', i, j) {
      if Together(hs, i, j) && !(Within(cur, i) && Within(cur, j)) {
        KeptTogether(hs, k, [], i, j);
      }
    }
  }

  /** After a partition, elements of the range that are out of order are in the same part. */
  lemma {:induction false} PartedPair<T(!new)>(c: seq<T>, lo: int, hi: int, nl: int, nr: int, i: int, j: int, cmp: Comparator<T>)
    requires Parted(c, lo, hi, nl, nr, cmp) && Preorder(cmp) && lo <= i < j < hi
    ensures cmp(c[i], c[j]) <= 0 || j < lo + nl || i >= hi - nr
  {
    var p := c[lo + nl];
    if !(j < lo + nl) && !(i >= hi - nr) {
      assert cmp(c[i], p) <= 0 && cmp(p, c[j]) <= 0;
    }
  }

  lemma {:induction false} PartedOrder<T(!new)>(c: seq<T>, hs: Family, k: nat, nl: nat, nr: nat, cmp: Comparator<T>)
    requires InOrder(c, hs, cmp) && k < |hs| && hs[k] != [] && Preorder(cmp)
    requires Parted(c, hs[k][0].lo, hs[k][0].lo + hs[k][0].n, nl, nr, cmp)
    ensures InOrder(c, hs[k := [Left(hs[k][0], nl), Right(hs[k][0], nr)] + hs[k][1..]], cmp)
  {
    var cur := hs[k][0];
    var front := [Left(cur, nl), Right(cur, nr)];
    var hs' := hs[k := front + hs[k][1..]];
    forall i, j | 0 <= i < j < |c| ensures cmp(c[i], c[j]) <= 0 || Together(hs', i, j) {
      if Within(cur, i) && Within(cur, j) {
        PartedPair(c, cur.lo, cur.lo + cur.n, nl, nr, i, j, cmp);
        assert hs'[k][0] == Left(cur, nl) && hs'[k][1] == Right(cur, nr);
        if (Within(Left(cur, nl), i) && Within(Left(cur, nl), j)) || (Within(Right(cur, nr), i) && Within(Right(cur, nr), j)) {
          assert Covers(hs'[k], i, j);
        }
      } else if Together(hs, i, j) {
        KeptTogether(hs, k, front, i, j);
      }
    }
  }

  // ----- the ranges of the pool

  function PcRanges(c: Pc): seq<Range> {
    match c
    case Enter(stack) => stack
    case Busy(cur, stack) => [cur] + stack
    case Parts(cur, nl, nr, stack) => [Left(cur, nl), Right(cur, nr)] + stack
    case Allocate(cur, nl, nr, stack) => [Left(cur, nl), Right(cur, nr)] + stack
    case Search(cur, nl, nr, stack, _) => [Left(cur, nl), Right(cur, nr)] + stack
    case Claim(cur, nl, nr, stack, _) => [Left(cur, nl), Right(cur, nr)] + stack
    case Give(cur, nl, nr, stack, _) => [Left(cur, nl), Right(cur, nr)] + stack
    case Return(stack) => stack
    case _ => []
  }

  /** The ranges worker `k` has been given, is working on, or has to come back to. */
  function Held(slot: Slot, c: Pc): seq<Range> {
    (if slot.given then [slot.work] else []) + PcRanges(c)
  }

  function Pending(p: Pool): (hs: Family)
    requires |p.slots| == |p.pcs|
    ensures |hs| == |p.pcs|
  {
    seq(|p.pcs|, k requires 0 <= k < |p.pcs| => Held(p.slots[k], p.pcs[k]))
  }

  ghost predicate RangesOk(p: Pool)
    requires |p.slots| == |p.pcs|
  {
    AllApart(Pending(p)) && Bounded(Pending(p), p.size)
  }

  ghost predicate Inv<T(!new)>(s: State<T>, input: seq<T>, cmp: Comparator<T>) {
    && PoolOk(s.p) && s.p.size == |input| && Shuffled(input, s.content, 0, |input|)
    && RangesOk(s.p)
    && (s.p.main == Join ==> InOrder(s.content, Pending(s.p), cmp))
  }

  // ----- the steps of the pool

  /** The family with the first `d` ranges of worker `k` dropped. */
  function Dropped(hs: Family, k: nat, d: nat): Family
    requires k < |hs| && d <= |hs[k]|
  {
    hs[k := hs[k][d..]]
  }

  ghost predicate Empties(hs: Family, k: nat, d: nat) {
    k < |hs| && d <= |hs[k]| && forall a :: 0 <= a < d ==> hs[k][a].n == 0
  }

  lemma {:induction false} Skipped(l: Range, r: Range, stack: seq<Range>)
    ensures [] + stack == stack == stack[0..]
    ensures [l] + ([r] + stack) == [l, r] + stack
    ensures ([l] + stack)[1..] == stack
    ensures ([l, r] + stack)[1..] == [r] + stack
    ensures ([l, r] + stack)[2..] == stack
  {
  }

  lemma {:induction false} TopHeld(slot: Slot, r: Range, stack: seq<Range>) returns (d: nat)
    requires !slot.given
    ensures d <= 1 && (d == 1 ==> r.n == 0) && Held(slot, Top(r, stack)) == ([r] + stack)[d..]
  {
    d := if r.n == 0 then 1 else 0;
    Skipped(r, r, stack);
    Skipped(r, r, [r] + stack);
  }

  lemma {:induction false} RecurseHeld(p: Pool, k: nat) returns (d: nat)
    requires k < |p.pcs| == |p.slots| && (p.pcs[k].Parts? || p.pcs[k].Search?) && !p.slots[k].given
    ensures d <= |Held(p.slots[k], p.pcs[k])|
    ensures forall a :: 0 <= a < d ==> Held(p.slots[k], p.pcs[k])[a].n == 0
    ensures Held(Recurse(p, k).slots[k], Recurse(p, k).pcs[k]) == Held(p.slots[k], p.pcs[k])[d..]
  {
    var c := p.pcs[k];
    d := PartsHeld(p.slots[k], Left(c.cur, c.nl), Right(c.cur, c.nr), c.stack);
    assert Held(p.slots[k], c) == [Left(c.cur, c.nl), Right(c.cur, c.nr)] + c.stack;
  }

  /** A worker with two parts before it goes on with the left one in its slot, or with the right one. */
  lemma {:induction false} PartsHeld(slot: Slot, l: Range, r: Range, stack: seq<Range>) returns (d: nat)
    requires !slot.given
    ensures d <= 2 && forall a :: 0 <= a < d ==> ([l, r] + stack)[a].n == 0
    ensures l.n > 0 ==> Held(slot.(work := l, given := true), Enter([r] + stack)) == ([l, r] + stack)[d..]
    ensures l.n == 0 ==> Held(slot, Top(r, stack)) == ([l, r] + stack)[d..]
  {
    Skipped(l, r, stack);
    if l.n > 0 {
      d := 0;
    } else {
      d := TopHeld(slot, r, stack);
      assert ([r] + stack)[d..] == ([l, r] + stack)[d + 1..];
      d := d + 1;
    }
  }

  lemma {:induction false} EnterHeld(p: Pool, k: nat) returns (d: nat)
    requires Sized(p) && k < |p.pcs| && p.slots[k].given && p.pcs[k].Enter?
    ensures d <= |Held(p.slots[k], p.pcs[k])|
    ensures forall a :: 0 <= a < d ==> Held(p.slots[k], p.pcs[k])[a].n == 0
    ensures Held(Move(p, k).slots[k], Move(p, k).pcs[k]) == Held(p.slots[k], p.pcs[k])[d..]
  {
    d := TopHeld(p.slots[k].(given := false), p.slots[k].work, p.pcs[k].stack);
  }

  lemma {:induction false} NextReturn(p: Pool, k: nat)
    requires Sized(p) && k < |p.pcs| && p.pcs[k].Return? && p.pcs[k].stack != []
    ensures Move(p, k).slots[k] == p.slots[k] && Move(p, k).pcs[k] == Top(p.pcs[k].stack[0], p.pcs[k].stack[1..])
  {
  }

  lemma {:induction false} PoppedHeld(slot: Slot, stack: seq<Range>) returns (d: nat)
    requires !slot.given && stack != []
    ensures d <= |stack| && (forall a :: 0 <= a < d ==> stack[a].n == 0)
    ensures Held(slot, Return(stack)) == stack && Held(slot, Top(stack[0], stack[1..])) == stack[d..]
  {
    assert stack == [stack[0]] + stack[1..];
    d := TopHeld(slot, stack[0], stack[1..]);
  }

  lemma {:induction false} ReturnHeld(p: Pool, k: nat) returns (d: nat)
    requires Sized(p) && k < |p.pcs| && !p.slots[k].given && p.pcs[k].Return? && p.pcs[k].stack != []
    ensures d <= |Held(p.slots[k], p.pcs[k])|
    ensures forall a :: 0 <= a < d ==> Held(p.slots[k], p.pcs[k])[a].n == 0
    ensures Held(Move(p, k).slots[k], Move(p, k).pcs[k]) == Held(p.slots[k], p.pcs[k])[d..]
  {
    NextReturn(p, k);
    d := PoppedHeld(p.slots[k], p.pcs[k].stack);
  }

  /** The ranges of a worker after a step in which it gives none away: the same, but for empty ones at the front. */
  lemma {:induction false} MoveHeld(p: Pool, k: nat) returns (d: nat)
    requires Sized(p) && k < |p.pcs| && SlotOk(p, k) && !p.pcs[k].Give?
    ensures d <= |Held(p.slots[k], p.pcs[k])|
    ensures forall a :: 0 <= a < d ==> Held(p.slots[k], p.pcs[k])[a].n == 0
    ensures Held(Move(p, k).slots[k], Move(p, k).pcs[k]) == Held(p.slots[k], p.pcs[k])[d..]
  {
    var c := p.pcs[k];
    if c.Parts? || c.Search? {
      d := SplitHeld(p, k);
    } else if c.Enter? {
      d := EnterHeld(p, k);
    } else if c.Return? && c.stack != [] {
      d := ReturnHeld(p, k);
    } else {
      SameHeld(p, k);
      d := 0;
    }
  }

  lemma {:induction false} SameHeld(p: Pool, k: nat)
    requires Sized(p) && k < |p.pcs|
    requires var c := p.pcs[k];
      !c.Give? && !c.Enter? && !c.Parts? && !c.Search? && (c.Return? ==> c.stack == [])
    ensures Held(Move(p, k).slots[k], Move(p, k).pcs[k]) == Held(p.slots[k], p.pcs[k])
  {
    SamePcRanges(p, k);
    SameWork(p, k);
  }

  lemma {:induction false} LockPcRanges(p: Pool, k: nat)
    requires Sized(p) && k < |p.pcs| && (p.pcs[k].Allocate? || p.pcs[k].Claim? || p.pcs[k].Busy?)
    ensures PcRanges(Move(p, k).pcs[k]) == PcRanges(p.pcs[k])
  {
  }

  lemma {:induction false} OutsidePcRanges(p: Pool, k: nat)
    requires Sized(p) && k < |p.pcs|
    requires var c := p.pcs[k];
      Resting(c) || c.Look? || c.Finish? || c.Count? || c.Stop? || c.Exited? || (c.Return? && c.stack == [])
    ensures PcRanges(Move(p, k).pcs[k]) == PcRanges(p.pcs[k]) == []
  {
  }

  lemma {:induction false} SamePcRanges(p: Pool, k: nat)
    requires Sized(p) && k < |p.pcs|
    requires var c := p.pcs[k];
      !c.Give? && !c.Enter? && !c.Parts? && !c.Search? && (c.Return? ==> c.stack == [])
    ensures PcRanges(Move(p, k).pcs[k]) == PcRanges(p.pcs[k])
  {
    if p.pcs[k].Allocate? || p.pcs[k].Claim? || p.pcs[k].Busy? {
      LockPcRanges(p, k);
    } else {
      OutsidePcRanges(p, k);
    }
  }

  lemma {:induction false} SameWork(p: Pool, k: nat)
    requires Sized(p) && k < |p.pcs| && !p.pcs[k].Give? && !p.pcs[k].Enter? && !p.pcs[k].Parts? && !p.pcs[k].Search?
    ensures var slot := Move(p, k).slots[k]; slot.given == p.slots[k].given && slot.work == p.slots[k].work
  {
  }

  /** A step of the search for an idle slot keeps the ranges. */
  lemma {:induction false} LookingHeld(p: Pool, k: nat)
    requires Sized(p) && k < |p.pcs| && (p.pcs[k].Parts? || p.pcs[k].Search?)
    requires var c := Move(p, k).pcs[k]; c.Allocate? || c.Search? || c.Claim?
    ensures Held(Move(p, k).slots[k], Move(p, k).pcs[k]) == Held(p.slots[k], p.pcs[k])
  {
  }

  lemma {:induction false} NextRecurse(p: Pool, k: nat)
    requires Sized(p) && k < |p.pcs| && (p.pcs[k].Parts? || p.pcs[k].Search?)
    requires var c := Move(p, k).pcs[k]; !(c.Allocate? || c.Search? || c.Claim?)
    ensures Move(p, k).slots[k] == Recurse(p, k).slots[k] && Move(p, k).pcs[k] == Recurse(p, k).pcs[k]
  {
  }

  lemma {:induction false} SplitHeld(p: Pool, k: nat) returns (d: nat)
    requires Sized(p) && k < |p.pcs| && !p.slots[k].given && (p.pcs[k].Parts? || p.pcs[k].Search?)
    ensures d <= |Held(p.slots[k], p.pcs[k])|
    ensures forall a :: 0 <= a < d ==> Held(p.slots[k], p.pcs[k])[a].n == 0
    ensures Held(Move(p, k).slots[k], Move(p, k).pcs[k]) == Held(p.slots[k], p.pcs[k])[d..]
  {
    var c := Move(p, k).pcs[k];
    if c.Allocate? || c.Search? || c.Claim? {
      LookingHeld(p, k);
      d := 0;
    } else {
      NextRecurse(p, k);
      d := RecurseHeld(p, k);
    }
  }

  lemma {:induction false} OtherHeld(p: Pool, p': Pool, j: nat)
    requires j < |p.pcs| == |p.slots| == |p'.pcs| == |p'.slots|
    requires p'.slots[j] == p.slots[j].(st := p'.slots[j].st)
    requires p'.pcs[j] == p.pcs[j] || (p.pcs[j].Waiting? && p'.pcs[j].Again?)
    ensures Held(p'.slots[j], p'.pcs[j]) == Held(p.slots[j], p.pcs[j])
  {
  }

  lemma {:induction false} ReachedHeld(p: Pool, k: nat, j: nat)
    requires Sized(p) && k < |p.pcs| && j < |p.pcs| && j != k && (p.pcs[k].Claim? || p.pcs[k].Stop?)
    ensures Held(Move(p, k).slots[j], Move(p, k).pcs[j]) == Held(p.slots[j], p.pcs[j])
  {
    OtherHeld(p, Move(p, k), j);
  }

  lemma {:induction false} MoveOthers(p: Pool, k: nat, j: nat)
    requires Sized(p) && k < |p.pcs| && j < |p.pcs| && j != k && !(p.pcs[k].Give? && j == p.pcs[k].i)
    ensures Held(Move(p, k).slots[j], Move(p, k).pcs[j]) == Held(p.slots[j], p.pcs[j])
  {
    if Reaches(p.pcs[k]) && j == p.pcs[k].i {
      ReachedHeld(p, k, j);
    } else {
      Elsewhere(p, k, j);
    }
  }

  lemma {:induction false} MovePending(p: Pool, k: nat) returns (d: nat)
    requires PoolOk(p) && k < |p.pcs| && !p.pcs[k].Give?
    ensures Empties(Pending(p), k, d) && Pending(Move(p, k)) == Dropped(Pending(p), k, d)
  {
    assert ThreadOk(p, k);
    d := MoveHeld(p, k);
    var hs, p' := Pending(p), Move(p, k);
    forall j | 0 <= j < |p.pcs| ensures Pending(p')[j] == Dropped(hs, k, d)[j] {
      if j != k {
        MoveOthers(p, k, j);
      }
    }
  }

  /** Handing the left part over passes the first range on. */
  lemma {:induction false} GivePending(p: Pool, k: nat) returns (d: nat)
    requires PoolOk(p) && k < |p.pcs| && p.pcs[k].Give?
    ensures var hs, i := Pending(p), p.pcs[k].i;
      && i < |hs| && i != k && hs[i] == [] && hs[k] != []
      && var passed: Family := hs[k := hs[k][1..]][i := [hs[k][0]]];
         Empties(passed, k, d) && Pending(Move(p, k)) == Dropped(passed, k, d)
  {
    var hs, p', i := Pending(p), Move(p, k), p.pcs[k].i;
    assert ThreadOk(p, k) && ThreadOk(p, i);
    d := GiveHeld(p, k);
    var passed: Family := hs[k := hs[k][1..]][i := [hs[k][0]]];
    forall j | 0 <= j < |p.pcs| ensures Pending(p')[j] == Dropped(passed, k, d)[j] {
      if j != k && j != i {
        MoveOthers(p, k, j);
      }
    }
  }

  lemma {:induction false} NextGive(p: Pool, k: nat)
    requires Sized(p) && k < |p.pcs| && p.pcs[k].Give? && p.pcs[k].i < |p.pcs| && p.pcs[k].i != k
    requires p.pcs[p.pcs[k].i].Again? || p.pcs[p.pcs[k].i].Waiting?
    ensures var c, p' := p.pcs[k], Move(p, k);
      && p'.slots[k] == p.slots[k] && p'.pcs[k] == Top(Right(c.cur, c.nr), c.stack)
      && p'.slots[c.i] == p.slots[c.i].(work := Left(c.cur, c.nl), given := true) && p'.pcs[c.i] == Again
  {
  }

  lemma {:induction false} GivenHeld(slot: Slot, c: Pc, l: Range, r: Range) returns (d: nat)
    requires !slot.given && c.Give? && l == Left(c.cur, c.nl) && r == Right(c.cur, c.nr)
    ensures var h := Held(slot, c);
      && h != [] && h[0] == l && d <= |h[1..]| && (forall a :: 0 <= a < d ==> h[1..][a].n == 0)
      && Held(slot, Top(r, c.stack)) == h[1..][d..]
  {
    assert Held(slot, c) == [l, r] + c.stack;
    Skipped(l, r, c.stack);
    d := TopHeld(slot, r, c.stack);
  }

  lemma {:induction false} GiveHeld(p: Pool, k: nat) returns (d: nat)
    requires Sized(p) && k < |p.pcs| && p.pcs[k].Give? && !p.slots[k].given && p.pcs[k].i < |p.pcs| && p.pcs[k].i != k
    requires p.pcs[p.pcs[k].i].Again? || p.pcs[p.pcs[k].i].Waiting?
    ensures var h, i, p' := Held(p.slots[k], p.pcs[k]), p.pcs[k].i, Move(p, k);
      && h != [] && d <= |h[1..]| && (forall a :: 0 <= a < d ==> h[1..][a].n == 0)
      && Held(p'.slots[k], p'.pcs[k]) == h[1..][d..] && Held(p'.slots[i], p'.pcs[i]) == [h[0]]
  {
    var c := p.pcs[k];
    NextGive(p, k);
    d := GivenHeld(p.slots[k], c, Left(c.cur, c.nl), Right(c.cur, c.nr));
  }

  lemma {:induction false} DropOrder<T(!new)>(c: seq<T>, hs: Family, k: nat, d: nat, cmp: Comparator<T>)
    requires InOrder(c, hs, cmp) && Empties(hs, k, d)
    ensures InOrder(c, Dropped(hs, k, d), cmp)
  {
    forall i, j | 0 <= i < j < |c| ensures cmp(c[i], c[j]) <= 0 || Together(Dropped(hs, k, d), i, j) {
      if Together(hs, i, j) {
        DropTogether(hs, k, d, i, j);
      }
    }
  }

  lemma {:induction false} PassOrder<T(!new)>(c: seq<T>, hs: Family, k: nat, i: nat, cmp: Comparator<T>)
    requires InOrder(c, hs, cmp) && k < |hs| && i < |hs| && i != k && hs[i] == [] && hs[k] != []
    ensures InOrder(c, hs[k := hs[k][1..]][i := [hs[k][0]]], cmp)
  {
    forall x, y | 0 <= x < y < |c| ensures cmp(c[x], c[y]) <= 0 || Together(hs[k := hs[k][1..]][i := [hs[k][0]]], x, y) {
      if Together(hs, x, y) {
        PassTogether(hs, k, i, x, y);
      }
    }
  }

  lemma {:induction false} GoKeeps<T(!new)>(s: State<T>, input: seq<T>, k: nat, cmp: Comparator<T>)
    requires Inv(s, input, cmp) && k < |s.p.pcs|
    ensures Inv(s.(p := Move(s.p, k)), input, cmp)
  {
    var p, hs := s.p, Pending(s.p);
    MoveKeeps(p, k);
    if p.pcs[k].Give? {
      var i := p.pcs[k].i;
      var d := GivePending(p, k);
      var passed: Family := hs[k := hs[k][1..]][i := [hs[k][0]]];
      PassApart(hs, k, i, p.size);
      DropApart(passed, k, d, p.size);
      if p.main == Join {
        PassOrder(s.content, hs, k, i, cmp);
        DropOrder(s.content, passed, k, d, cmp);
      }
    } else {
      var d := MovePending(p, k);
      DropApart(hs, k, d, p.size);
      if p.main == Join {
        DropOrder(s.content, hs, k, d, cmp);
      }
    }
  }

  // ----- the steps of the other kinds

  lemma {:induction false} BusyHeld(p: Pool, k: nat)
    requires PoolOk(p) && k < |p.pcs| && p.pcs[k].Busy?
    ensures p.main == Join
    ensures Pending(p)[k] == [p.pcs[k].cur] + p.pcs[k].stack && Pending(p)[k][0] == p.pcs[k].cur
  {
    assert ThreadOk(p, k);
  }

  lemma {:induction false} AtPending(p: Pool, k: nat, c: Pc)
    requires |p.slots| == |p.pcs| && k < |p.pcs| && !p.slots[k].given
    ensures Pending(At(p, k, c)) == Pending(p)[k := PcRanges(c)]
  {
    var p' := At(p, k, c);
    assert Held(p'.slots[k], c) == PcRanges(c);
    assert forall j :: 0 <= j < |p.pcs| && j != k ==> Pending(p')[j] == Pending(p)[j];
  }

  /** A worker is done with its current range: sorted, or partitioned. */
  lemma {:induction false} LeavesRange(p: Pool, k: nat, c: Pc)
    requires PoolOk(p) && k < |p.pcs| && p.pcs[k].Busy? && (c.Parts? || c.Return?)
    ensures PoolOk(At(p, k, c)) && Pending(At(p, k, c)) == Pending(p)[k := PcRanges(c)]
  {
    assert ThreadOk(p, k);
    Quiet(p, k, c);
    AtPending(p, k, c);
  }

  lemma {:induction false} OtherContent<T(!new)>(s: State<T>, input: seq<T>, t: seq<T>, cmp: Comparator<T>)
    requires Inv(s, input, cmp) && InOrder(t, Pending(s.p), cmp) && Shuffled(input, t, 0, |input|)
    ensures Inv(s.(content := t), input, cmp)
  {
  }

  /** What the invariant says of the ranges while worker `k` is busy. */
  lemma {:induction false} BusyOrder<T(!new)>(s: State<T>, input: seq<T>, k: nat, cmp: Comparator<T>)
    requires Inv(s, input, cmp) && k < |s.p.pcs| && s.p.pcs[k].Busy?
    ensures var hs := Pending(s.p); k < |hs| && hs[k] != [] && hs[k][0] == s.p.pcs[k].cur
    ensures AllApart(Pending(s.p))
    ensures InOrder(s.content, Pending(s.p), cmp)
    ensures Shuffled(input, s.content, 0, |input|)
  {
    BusyHeld(s.p, k);
  }

  lemma {:induction false} RearrangeShuffles<T(!new)>(s: State<T>, input: seq<T>, k: nat, t: seq<T>)
    requires Shuffled(input, s.content, 0, |input|) && k < |s.p.pcs| && s.p.pcs[k].Busy?
    requires Shuffled(s.content, t, s.p.pcs[k].cur.lo, s.p.pcs[k].cur.lo + s.p.pcs[k].cur.n)
    ensures Shuffled(input, t, 0, |input|)
  {
    ShuffledInside(input, s.content, t, s.p.pcs[k].cur.lo, s.p.pcs[k].cur.lo + s.p.pcs[k].cur.n, 0, |input|);
  }

  lemma {:induction false} RearrangeKeeps<T(!new)>(s: State<T>, input: seq<T>, k: nat, t: seq<T>, cmp: Comparator<T>)
    requires Inv(s, input, cmp) && k < |s.p.pcs| && s.p.pcs[k].Busy?
    requires Shuffled(s.content, t, s.p.pcs[k].cur.lo, s.p.pcs[k].cur.lo + s.p.pcs[k].cur.n)
    ensures Inv(s.(content := t), input, cmp)
  {
    BusyOrder(s, input, k, cmp);
    RearrangedOrder(s.content, t, Pending(s.p), k, s.p.pcs[k].cur, cmp);
    RearrangeShuffles(s, input, k, t);
    OtherContent(s, input, t, cmp);
  }

  lemma {:induction false} PartedFamily<T(!new)>(c: seq<T>, hs: Family, k: nat, cur: Range, stack: seq<Range>, nl: nat, nr: nat,
                                                 cmp: Comparator<T>)
    requires AllApart(hs) && Bounded(hs, |c|) && InOrder(c, hs, cmp) && k < |hs| && hs[k] == [cur] + stack && Preorder(cmp)
    requires Parted(c, cur.lo, cur.lo + cur.n, nl, nr, cmp)
    ensures var hs' := hs[k := [Left(cur, nl), Right(cur, nr)] + stack];
      AllApart(hs') && Bounded(hs', |c|) && InOrder(c, hs', cmp)
  {
    assert hs[k][0] == cur && hs[k][1..] == stack;
    PartedOrder(c, hs, k, nl, nr, cmp);
    SplitApart(hs, k, cur, stack, Left(cur, nl), Right(cur, nr), |c|);
  }

  lemma {:induction false} PartitionedKeeps<T(!new)>(s: State<T>, p': Pool, input: seq<T>, k: nat, c: Pc, cmp: Comparator<T>)
    requires Inv(s, input, cmp) && k < |s.p.pcs| && s.p.pcs[k].Busy? && Preorder(cmp) && p' == At(s.p, k, c)
    requires c.Parts? && c.cur == s.p.pcs[k].cur && c.stack == s.p.pcs[k].stack
    requires Parted(s.content, c.cur.lo, c.cur.lo + c.cur.n, c.nl, c.nr, cmp)
    ensures Inv(s.(p := p'), input, cmp)
  {
    BusyHeld(s.p, k);
    LeavesRange(s.p, k, c);
    PartedFamily(s.content, Pending(s.p), k, c.cur, c.stack, c.nl, c.nr, cmp);
  }

  lemma {:induction false} SortedKeeps<T(!new)>(s: State<T>, input: seq<T>, k: nat, cmp: Comparator<T>)
    requires Inv(s, input, cmp) && k < |s.p.pcs| && s.p.pcs[k].Busy? && s.p.pcs[k].cur.lo + s.p.pcs[k].cur.n <= |s.content|
    requires Sorted(s.content, s.p.pcs[k].cur.lo, s.p.pcs[k].cur.lo + s.p.pcs[k].cur.n, cmp)
    ensures Inv(s.(p := At(s.p, k, Return(s.p.pcs[k].stack))), input, cmp)
  {
    var p, stack, hs := s.p, s.p.pcs[k].stack, Pending(s.p);
    BusyHeld(p, k);
    LeavesRange(p, k, Return(stack));
    assert hs[k][1..] == stack;
    SortedOrder(s.content, hs, k, cmp);
    DropApart(hs, k, 1, p.size);
  }

  lemma {:induction false} SpuriousKeeps<T(!new)>(s: State<T>, input: seq<T>, k: nat, cmp: Comparator<T>)
    requires Inv(s, input, cmp) && k < |s.p.pcs| && s.p.pcs[k].Waiting?
    ensures Inv(s.(p := At(s.p, k, Again)), input, cmp)
  {
    SpuriousStep(s.p, k);
    assert Pending(At(s.p, k, Again)) == Pending(s.p);
  }

  lemma {:induction false} NothingHeld(p: Pool, k: nat)
    requires PoolOk(p) && k < |p.pcs| && (p.main != Join || p.down)
    ensures Pending(p)[k] == []
  {
    assert ThreadOk(p, k);
  }

  lemma {:induction false} FirstRange(p: Pool)
    requires PoolOk(p) && p.main == Hand
    ensures Pending(MoveMain(p)) == Pending(p)[0 := [Range(0, p.size)]]
  {
    var p' := MoveMain(p);
    assert ThreadOk(p, 0);
    forall j | 0 <= j < |p.pcs| ensures Pending(p')[j] == Pending(p)[0 := [Range(0, p.size)]][j] {
      if j == 0 {
        NothingHeld(p, 0);
      } else {
        OtherHeld(p, p', j);
      }
    }
  }

  lemma {:induction false} MainKeeps<T(!new)>(s: State<T>, input: seq<T>, cmp: Comparator<T>)
    requires Inv(s, input, cmp)
    ensures Inv(s.(p := MoveMain(s.p)), input, cmp)
  {
    var p, p' := s.p, MoveMain(s.p);
    MainStep(p);
    if p.main == Hand {
      FirstRange(p);
      var hs := Pending(p');
      forall k | 0 <= k < |p.pcs| ensures k != 0 ==> hs[k] == [] {
        NothingHeld(p, k);
      }
      forall i, j | 0 <= i < j < |s.content| ensures Together(hs, i, j) {
        CoversFirst(hs, 0, i, j);
      }
    } else if p' != p {
      assert Pending(p') == Pending(p);
    }
  }

  // ----- every run

  lemma {:induction false} StepKeeps<T(!new)>(s: State<T>, input: seq<T>, step: Step<T>, cmp: Comparator<T>)
    requires Inv(s, input, cmp) && Preorder(cmp)
    ensures Inv(Next(s, step, cmp), input, cmp)
  {
    if step.Go? {
      if step.k < |s.p.pcs| { GoKeeps(s, input, step.k, cmp); }
    } else if step.GoMain? {
      MainKeeps(s, input, cmp);
    } else if Next(s, step, cmp) != s {
      OtherKeeps(s, input, step, cmp);
    }
  }

  lemma {:induction false} OtherKeeps<T(!new)>(s: State<T>, input: seq<T>, step: Step<T>, cmp: Comparator<T>)
    requires Inv(s, input, cmp) && Preorder(cmp) && !step.Go? && !step.GoMain? && Next(s, step, cmp) != s
    ensures Inv(Next(s, step, cmp), input, cmp)
  {
    match step
    case Rearrange(k, t) => RearrangeKeeps(s, input, k, t, cmp);
    case Partitioned(k, nl, nr) =>
      var c := Parts(s.p.pcs[k].cur, nl, nr, s.p.pcs[k].stack);
      PartitionedKeeps(s, At(s.p, k, c), input, k, c, cmp);
    case SortedNow(k) => SortedKeeps(s, input, k, cmp);
    case Spurious(k) => SpuriousKeeps(s, input, k, cmp);
  }

  lemma {:induction false} InitKeeps<T(!new)>(input: seq<T>, threads: nat, forkelem: nat, cmp: Comparator<T>)
    requires threads >= 1
    ensures Inv(Init(input, threads, forkelem), input, cmp)
  {
    var p := Init(input, threads, forkelem).p;
    InitPool(|input|, threads, forkelem);
    assert p == Init(seq(|input|, _ => 0), threads, forkelem).p;
    assert forall k :: 0 <= k < |p.pcs| ==> Pending(p)[k] == [];
  }

  lemma {:induction false} RunKeeps<T(!new)>(input: seq<T>, threads: nat, forkelem: nat, steps: seq<Step<T>>, cmp: Comparator<T>)
    requires threads >= 1 && Preorder(cmp)
    ensures Inv(Run(Init(input, threads, forkelem), steps, cmp), input, cmp)
    decreases |steps|
  {
    if steps == [] {
      InitKeeps(input, threads, forkelem, cmp);
    } else {
      RunKeeps(input, threads, forkelem, steps[..|steps| - 1], cmp);
      StepKeeps(Run(Init(input, threads, forkelem), steps[..|steps| - 1], cmp), input, steps[|steps| - 1], cmp);
    }
  }

  /** In every state of every run the pending ranges are pairwise disjoint, and once the array has been
      handed out any two elements that are out of order lie in one of them. */
  lemma {:induction false} RangesSuffice<T(!new)>(input: seq<T>, threads: nat, forkelem: nat, steps: seq<Step<T>>, cmp: Comparator<T>)
    requires threads >= 1 && Preorder(cmp)
    ensures var s := Run(Init(input, threads, forkelem), steps, cmp);
      && |s.p.slots| == |s.p.pcs| && AllApart(Pending(s.p)) && Bounded(Pending(s.p), |input|)
      && multiset(s.content) == multiset(input)
      && (s.p.main == Join ==> InOrder(s.content, Pending(s.p), cmp))
  {
    var s := Run(Init(input, threads, forkelem), steps, cmp);
    RunKeeps(input, threads, forkelem, steps, cmp);
    assert input[0..|input|] == input && s.content[0..|input|] == s.content;
  }

  /** When the pool stops, no range is pending, and the array is the input in order. */
  lemma {:induction false} SortedAtShutdown<T(!new)>(input: seq<T>, threads: nat, forkelem: nat, steps: seq<Step<T>>, cmp: Comparator<T>)
    requires threads >= 1 && Preorder(cmp)
    requires Run(Init(input, threads, forkelem), steps, cmp).p.down
    ensures var s := Run(Init(input, threads, forkelem), steps, cmp);
      Sorted(s.content, 0, |s.content|, cmp) && multiset(s.content) == multiset(input)
  {
    var s := Run(Init(input, threads, forkelem), steps, cmp);
    RunKeeps(input, threads, forkelem, steps, cmp);
    RangesSuffice(input, threads, forkelem, steps, cmp);
    forall k | 0 <= k < |s.p.pcs| ensures Pending(s.p)[k] == [] {
      NothingHeld(s.p, k);
    }
  }

  /** While `mtx_al` is free and the pool runs, `idlethreads` is the number of idle slots; no slot is told
      to terminate before the pool stops, and then no slot has work. */
  lemma {:induction false} IdleCounted<T(!new)>(input: seq<T>, threads: nat, forkelem: nat, steps: seq<Step<T>>, k: nat, cmp: Comparator<T>)
    requires threads >= 1 && Preorder(cmp) && k < |Run(Init(input, threads, forkelem), steps, cmp).p.slots|
    ensures var p := Run(Init(input, threads, forkelem), steps, cmp).p;
      && (p.al == None && !p.down ==> p.idle == IdleSlots(p.slots))
      && (p.slots[k].st == Term ==> p.down)
      && (p.down ==> p.slots[k].st != Work)
  {
    RunKeeps(input, threads, forkelem, steps, cmp);
    assert ThreadOk(Run(Init(input, threads, forkelem), steps, cmp).p, k);
  }

  /** In no reachable state is everybody stuck before every thread has exited. */
  lemma {:induction false} RunsOn<T(!new)>(input: seq<T>, threads: nat, forkelem: nat, steps: seq<Step<T>>, cmp: Comparator<T>)
    requires threads >= 1 && Preorder(cmp)
    ensures var p := Run(Init(input, threads, forkelem), steps, cmp).p;
      && Sized(p)
      && (|| MoveMain(p) != p || (exists k: nat :: Able(p, k))
          || (p.main == Join && forall k :: 0 <= k < |p.pcs| ==> p.pcs[k].Exited?))
  {
    RunKeeps(input, threads, forkelem, steps, cmp);
    NoDeadlock(Run(Init(input, threads, forkelem), steps, cmp).p);
  }
}
