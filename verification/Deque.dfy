/** The work-stealing deque of `work-steal.c` as a state machine: one owner and any
    number of thieves, one step per atomic access.

    Every pushed item carries a tag that tells the pushes apart. `log` remembers the
    item last pushed at each index, `pushed` and `out` what went in and came out. */
module Deque {
  import opened Options

  datatype Item = Item(work: int, tag: nat)

  /** What `take` and `steal` return. `Got(None)` would be the content of memory nobody wrote. */
  datatype Answer = Got(slot: Option<Item>) | Empty | Abort

  type Array = seq<Option<Item>>

  /** Where the owner stands: the locals it has loaded and the access that comes next. */
  datatype Owner =
    | Idle
    // push
    | PushLoadTop(w: Item, b: nat)
    | PushLoadArray(w: Item, b: nat, t: nat)
    | PushStore(w: Item, b: nat, a: nat)
    | PushPublish(w: Item, b: nat)
    // resize, called by push
    | GrowLoadArray(w: Item, b: nat)
    | GrowLoadTop(w: Item, b: nat, a: nat)
    | GrowLoadBottom(w: Item, b: nat, a: nat, fresh_: Array, t: nat)
    | GrowCopy(w: Item, b: nat, a: nat, fresh_: Array, i: nat, end: nat)
    | PushReload(w: Item, b: nat)
    // take
    | TakeLoadArray(b: nat)
    | TakeStoreBottom(b: nat, a: nat)
    | TakeLoadTop(b: nat, a: nat)
    | TakeLoadSlot(b: nat, a: nat, t: nat)
    | TakeCas(b: nat, t: nat, x: Option<Item>)
    | TakeRestore(b: nat, r: Answer)

  datatype Thief =
    | Away
    | StealLoadBottom(t: nat)
    | StealLoadArray(t: nat)
    | StealLoadSlot(t: nat, a: nat)
    | StealCas(t: nat, x: Option<Item>)

  datatype State = State(
    top: nat, bottom: nat, arrays: seq<Array>, cur: nat,
    owner: Owner, thieves: seq<Thief>,
    log: map<nat, Item>, pushed: seq<Item>, out: seq<Answer>)

  /** The number of values of `size_t`. */
  const WORD: nat := 0x1_0000_0000_0000_0000

  /** `x - 1` on a `size_t`. */
  function Pred(x: nat): nat {
    if x == 0 then WORD - 1 else x - 1
  }

  function Read(s: State, a: nat, i: nat): Option<Item> {
    if a < |s.arrays| && |s.arrays[a]| > 0 then s.arrays[a][i % |s.arrays[a]|] else None
  }

  function Put(a: Array, i: nat, x: Option<Item>): Array {
    if |a| > 0 then a[i % |a| := x] else a
  }

  function Size(s: State, a: nat): nat {
    if a < |s.arrays| then |s.arrays[a]| else 0
  }

  // ----- the steps

  datatype Step = StartPush(work: int) | StartTake | OwnerMove | StartSteal(k: nat) | ThiefMove(k: nat)

  /** The next access of the owner. */
  function Move(s: State): State {
    match s.owner
    case Idle => s
    case PushLoadTop(w, b) => s.(owner := PushLoadArray(w, b, s.top))
    case PushLoadArray(w, b, t) =>
      if b - t > Size(s, s.cur) - 1 then s.(owner := GrowLoadArray(w, b))
      else s.(owner := PushStore(w, b, s.cur))
    case PushStore(w, b, a) =>
      if a < |s.arrays| then s.(arrays := s.arrays[a := Put(s.arrays[a], b, Some(w))], owner := PushPublish(w, b))
      else s
    case PushPublish(w, b) =>
      s.(bottom := b + 1, log := s.log[b := w], pushed := s.pushed + [w], owner := Idle)
    case GrowLoadArray(w, b) => s.(owner := GrowLoadTop(w, b, s.cur))
    case GrowLoadTop(w, b, a) =>
      s.(owner := GrowLoadBottom(w, b, a, seq(2 * Size(s, a), _ => None), s.top))
    case GrowLoadBottom(w, b, a, f, t) => s.(owner := GrowCopy(w, b, a, f, t, s.bottom))
    case GrowCopy(w, b, a, f, i, end) =>
      if i < end then s.(owner := GrowCopy(w, b, a, Put(f, i, Read(s, a, i)), i + 1, end))
      else s.(arrays := s.arrays + [f], cur := |s.arrays|, owner := PushReload(w, b))
    case PushReload(w, b) => s.(owner := PushStore(w, b, s.cur))
    case TakeLoadArray(b) => s.(owner := TakeStoreBottom(b, s.cur))
    case TakeStoreBottom(b, a) => s.(bottom := b, owner := TakeLoadTop(b, a))
    case TakeLoadTop(b, a) =>
      if s.top <= b then s.(owner := TakeLoadSlot(b, a, s.top)) else s.(owner := TakeRestore(b, Empty))
    case TakeLoadSlot(b, a, t) =>
      if t == b then s.(owner := TakeCas(b, t, Read(s, a, b)))
      else s.(owner := Idle, out := s.out + [Got(Read(s, a, b))])
    case TakeCas(b, t, x) =>
      if s.top == t then s.(top := t + 1, owner := TakeRestore(b, Got(x)))
      else s.(owner := TakeRestore(b, Empty))
    case TakeRestore(b, r) => s.(bottom := b + 1, owner := Idle, out := s.out + [r])
  }

  /** The next access of thief `k`. */
  function Steal(s: State, k: nat): State
    requires k < |s.thieves|
  {
    match s.thieves[k]
    case Away => s
    case StealLoadBottom(t) =>
      if t < s.bottom then s.(thieves := s.thieves[k := StealLoadArray(t)])
      else s.(thieves := s.thieves[k := Away], out := s.out + [Empty])
    case StealLoadArray(t) => s.(thieves := s.thieves[k := StealLoadSlot(t, s.cur)])
    case StealLoadSlot(t, a) => s.(thieves := s.thieves[k := StealCas(t, Read(s, a, t))])
    case StealCas(t, x) =>
      if s.top == t then s.(top := t + 1, thieves := s.thieves[k := Away], out := s.out + [Got(x)])
      else s.(thieves := s.thieves[k := Away], out := s.out + [Abort])
  }

  /** One step. A step of a thread that cannot take it leaves the state alone. */
  function Next(s: State, step: Step): State {
    match step
    case StartPush(work) =>
      if s.owner.Idle? then s.(owner := PushLoadTop(Item(work, |s.pushed|), s.bottom)) else s
    case StartTake =>
      if s.owner.Idle? then s.(owner := TakeLoadArray(Pred(s.bottom))) else s
    case OwnerMove => Move(s)
    case StartSteal(k) =>
      if k < |s.thieves| && s.thieves[k].Away? then s.(thieves := s.thieves[k := StealLoadBottom(s.top)]) else s
    case ThiefMove(k) => if k < |s.thieves| then Steal(s, k) else s
  }

  function Run(s: State, steps: seq<Step>): State {
    if steps == [] then s else Next(Run(s, steps[..|steps| - 1]), steps[|steps| - 1])
  }

  /** `init` with capacity `n`, and `m` threads that may steal. */
  function Init(n: nat, m: nat): State {
    State(0, 0, [seq(n, _ => None)], 0, Idle, seq(m, _ => Away), map[], [], [])
  }

  // ----- what every state satisfies

  /** One past the last index the owner has filled and not yet given up. */
  function High(s: State): nat {
    match s.owner
    case TakeLoadTop(b, _) => b + 1
    case TakeLoadSlot(b, _, _) => b + 1
    case TakeCas(b, _, _) => b + 1
    case TakeRestore(b, _) => b + 1
    case _ => s.bottom
  }

  /** One past the last index still up for grabs: the owner, once it has read a smaller `top`, has claimed index `b`. */
  function Limit(s: State): nat {
    if s.owner.TakeLoadSlot? && s.owner.t < s.owner.b then s.owner.b else High(s)
  }

  ghost predicate Bounds(s: State) {
    && s.cur < |s.arrays|
    && Size(s, s.cur) > 0
    && s.top <= Limit(s)
    && s.bottom <= Limit(s)
    && High(s) - s.top <= Size(s, s.cur)
    && (s.pushed != [] <==> High(s) > 0)
  }

  /** Array `a` holds at its slot for index `i` the item last pushed at `i`. */
  ghost predicate Holds(s: State, a: nat, i: nat) {
    i in s.log && Read(s, a, i) == Some(s.log[i])
  }

  ghost predicate Stored(s: State) {
    forall i :: s.top <= i < High(s) ==> i in s.log && Holds(s, s.cur, i)
  }

  ghost predicate OwnerOk(s: State) {
    match s.owner
    case Idle => true
    case PushLoadTop(w, b) => w.tag == |s.pushed| && b == s.bottom
    case PushLoadArray(w, b, t) => w.tag == |s.pushed| && b == s.bottom && t <= s.top
    case PushStore(w, b, a) => w.tag == |s.pushed| && b == s.bottom && a == s.cur && b - s.top < Size(s, a)
    case PushPublish(w, b) =>
      && w.tag == |s.pushed| && b == s.bottom
      && Read(s, s.cur, b) == Some(w) && b - s.top < Size(s, s.cur)
    case GrowLoadArray(w, b) => w.tag == |s.pushed| && b == s.bottom
    case GrowLoadTop(w, b, a) => w.tag == |s.pushed| && b == s.bottom && a == s.cur
    case GrowLoadBottom(w, b, a, f, t) =>
      w.tag == |s.pushed| && b == s.bottom && a == s.cur && |f| == 2 * Size(s, a) && t <= s.top
    case GrowCopy(w, b, a, f, i, end) =>
      && w.tag == |s.pushed| && b == s.bottom == end && i <= end && a == s.cur && |f| == 2 * Size(s, a)
      && Copied(s, f, i)
    case PushReload(w, b) => w.tag == |s.pushed| && b == s.bottom && b - s.top < Size(s, s.cur)
    case TakeLoadArray(b) => b + 1 == s.bottom
    case TakeStoreBottom(b, a) => b + 1 == s.bottom && a == s.cur
    case TakeLoadTop(b, a) => b == s.bottom && a == s.cur
    case TakeLoadSlot(b, a, t) => b == s.bottom && a == s.cur && t <= s.top && t <= b
    case TakeCas(b, t, x) => b == s.bottom && t == b && t <= s.top && (s.top == b ==> b in s.log && x == Some(s.log[b]))
    case TakeRestore(b, r) => b == s.bottom && s.top == b + 1 && (r == Empty || (r.Got? && r.slot.Some?))
  }

  /** The part of the live items below `i` has reached the new array. */
  ghost predicate Copied(s: State, f: Array, i: nat) {
    && |f| > 0
    && forall j :: s.top <= j < i && j < s.bottom ==> j in s.log && f[j % |f|] == Some(s.log[j])
  }

  ghost predicate ThiefOk(s: State, th: Thief) {
    match th
    case Away => true
    case StealLoadBottom(t) => t <= s.top
    case StealLoadArray(t) => t <= s.top && (s.top == t ==> t < Limit(s))
    case StealLoadSlot(t, a) => t <= s.top && (s.top == t ==> t < Limit(s) && Holds(s, a, t))
    case StealCas(t, x) => t <= s.top && (s.top == t ==> t < Limit(s) && t in s.log && x == Some(s.log[t]))
  }

  ghost predicate ThievesOk(s: State) {
    forall k :: 0 <= k < |s.thieves| ==> ThiefOk(s, s.thieves[k])
  }

  ghost predicate Tagged(s: State) {
    forall i :: 0 <= i < |s.pushed| ==> s.pushed[i].tag == i
  }

  /** The items at the indices from `lo` up to `hi`. */
  ghost function Slice(log: map<nat, Item>, lo: nat, hi: nat): seq<Item> {
    if lo >= hi then []
    else Slice(log, lo, hi - 1) + if hi - 1 in log then [log[hi - 1]] else []
  }

  /** What has been claimed and is about to be returned. */
  ghost function InFlight(s: State): seq<Item> {
    match s.owner
    case TakeLoadSlot(b, _, t) => if t < b && b in s.log then [s.log[b]] else []
    case TakeRestore(_, r) => if r.Got? && r.slot.Some? then [r.slot.value] else []
    case _ => []
  }

  ghost function Items(out: seq<Answer>): seq<Item> {
    if out == [] then []
    else
      var r := out[|out| - 1];
      Items(out[..|out| - 1]) + if r.Got? && r.slot.Some? then [r.slot.value] else []
  }

  ghost predicate NoGarbage(out: seq<Answer>) {
    forall i :: 0 <= i < |out| && out[i].Got? ==> out[i].slot.Some?
  }

  /** What went in, what came out, what is claimed and what is still up for grabs. */
  datatype Books = Books(pushed: seq<Item>, out: seq<Answer>, flying: seq<Item>, rest: seq<Item>)

  ghost function BooksOf(s: State): Books {
    Books(s.pushed, s.out, InFlight(s), Slice(s.log, s.top, Limit(s)))
  }

  ghost function Total(b: Books): multiset<Item> {
    multiset(Items(b.out)) + multiset(b.flying) + multiset(b.rest)
  }

  /** Every pushed item is in exactly one place: returned, claimed, or still in the deque. */
  ghost predicate Conserved(b: Books) {
    NoGarbage(b.out) && multiset(b.pushed) == Total(b)
  }

  ghost predicate Core(s: State) {
    Bounds(s) && Stored(s) && OwnerOk(s) && ThievesOk(s) && Tagged(s)
  }

  ghost predicate Inv(s: State) {
    Core(s) && Conserved(BooksOf(s))
  }

  lemma InitOk(n: nat, m: nat)
    requires n >= 1
    ensures Inv(Init(n, m))
  {
  }
}
