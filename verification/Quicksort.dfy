/** `qsort_algo` of `qsort-mt.c`: Bentley and McIlroy's quicksort, in place. Pointers into the array
    of elements are indices; `lo` and `hi` stand for `a` and `a + n * es`. */
module Quicksort {
  import opened Options
  import opened Ordering

  // ----- the pivot

  /** The index of the median of three elements. */
  function Med3<T>(s: seq<T>, a: int, b: int, c: int, cmp: Comparator<T>): int
    requires 0 <= a < |s| && 0 <= b < |s| && 0 <= c < |s|
  {
    if cmp(s[a], s[b]) < 0 then
      if cmp(s[b], s[c]) < 0 then b else if cmp(s[a], s[c]) < 0 then c else a
    else
      if cmp(s[b], s[c]) > 0 then b else if cmp(s[a], s[c]) < 0 then a else c
  }

  /** It is one of the three, and neither both others lie strictly below it nor both strictly above it. */
  lemma {:induction false} Med3IsMedian<T(!new)>(s: seq<T>, a: int, b: int, c: int, cmp: Comparator<T>)
    requires 0 <= a < |s| && 0 <= b < |s| && 0 <= c < |s| && Preorder(cmp)
    ensures var m := Med3(s, a, b, c, cmp);
      || (m == a && Between(s[b], s[a], s[c], cmp))
      || (m == b && Between(s[a], s[b], s[c], cmp))
      || (m == c && Between(s[a], s[c], s[b], cmp))
  {
  }

  ghost predicate Between<T>(x: T, m: T, y: T, cmp: Comparator<T>) {
    (cmp(x, m) <= 0 && cmp(m, y) <= 0) || (cmp(y, m) <= 0 && cmp(m, x) <= 0)
  }

  /** Where the pivot is taken from: the middle, the median of three, or the pseudomedian of nine. */
  function Pivot<T>(s: seq<T>, lo: int, n: int, cmp: Comparator<T>): (r: int)
    requires 0 <= lo && n >= 7 && lo + n <= |s|
    ensures lo <= r < lo + n
  {
    var pm := lo + n / 2;
    if n <= 7 then pm
    else
      var pl, pn := lo, lo + n - 1;
      if n > 40 then
        var d := n / 8;
        Med3(s, Med3(s, pl, pl + d, pl + 2 * d, cmp), Med3(s, pm - d, pm, pm + d, cmp),
             Med3(s, pn - 2 * d, pn - d, pn, cmp), cmp)
      else Med3(s, pl, pm, pn, cmp)
  }

  // ----- blocks

  /** The stretch falls into elements less than, equal to and greater than its pivot: `nl`, some, and `nr` of them. */
  ghost predicate Parted<T>(s: seq<T>, lo: int, hi: int, nl: int, nr: int, cmp: Comparator<T>) {
    && 0 <= lo <= hi <= |s| && 0 <= nl && 0 <= nr && nl + nr < hi - lo
    && var p := s[lo + nl];
    && (forall i :: lo <= i < lo + nl ==> cmp(s[i], p) < 0)
    && (forall i :: lo + nl <= i < hi - nr ==> cmp(s[i], p) == 0)
    && (forall i :: hi - nr <= i < hi ==> cmp(s[i], p) > 0)
  }

  /** The four blocks of the partitioning loop: equal, less, not yet looked at, greater, equal. */
  ghost predicate Blocks<T>(s: seq<T>, lo: int, hi: int, pa: int, pb: int, pc: int, pd: int, cmp: Comparator<T>) {
    && 0 <= lo < pa <= pb <= pc + 1 && pc <= pd < hi <= |s|
    && (forall i :: lo < i < pa ==> cmp(s[i], s[lo]) == 0)
    && (forall i :: pa <= i < pb ==> cmp(s[i], s[lo]) < 0)
    && (forall i :: pc < i <= pd ==> cmp(s[i], s[lo]) > 0)
    && (forall i :: pd < i < hi ==> cmp(s[i], s[lo]) == 0)
  }

  function Swapped<T>(s: seq<T>, i: int, j: int): seq<T>
    requires 0 <= i < |s| && 0 <= j < |s|
  {
    s[i := s[j]][j := s[i]]
  }

  lemma {:induction false} BlocksUp<T(!new)>(s: seq<T>, lo: int, hi: int, pa: int, pb: int, pc: int, pd: int, cmp: Comparator<T>)
    requires Blocks(s, lo, hi, pa, pb, pc, pd, cmp) && pb <= pc
    ensures cmp(s[pb], s[lo]) < 0 ==> Blocks(s, lo, hi, pa, pb + 1, pc, pd, cmp)
    ensures cmp(s[pb], s[lo]) == 0 ==> Blocks(Swapped(s, pa, pb), lo, hi, pa + 1, pb + 1, pc, pd, cmp)
  {
  }

  lemma {:induction false} BlocksDown<T(!new)>(s: seq<T>, lo: int, hi: int, pa: int, pb: int, pc: int, pd: int, cmp: Comparator<T>)
    requires Blocks(s, lo, hi, pa, pb, pc, pd, cmp) && pb <= pc
    ensures cmp(s[pc], s[lo]) > 0 ==> Blocks(s, lo, hi, pa, pb, pc - 1, pd, cmp)
    ensures cmp(s[pc], s[lo]) == 0 ==> Blocks(Swapped(s, pc, pd), lo, hi, pa, pb, pc - 1, pd - 1, cmp)
  {
  }

  method Swap<T>(a: array<T>, i: int, j: int, ghost s0: seq<T>, ghost lo: int, ghost hi: int)
    requires 0 <= lo <= i < hi <= a.Length && lo <= j < hi && Shuffled(s0, a[..], lo, hi)
    modifies a
    ensures a[..] == Swapped(old(a[..]), i, j)
    ensures Shuffled(s0, a[..], lo, hi)
  {
    ShuffledSwap(a[..], i, j, lo, hi);
    ShuffledTrans(s0, a[..], Swapped(a[..], i, j), lo, hi);
    a[i], a[j] := a[j], a[i];
  }

  /** The loop over `pb`: elements equal to the pivot go to the left end. */
  method ScanUp<T(!new)>(a: array<T>, lo: int, hi: int, pa0: int, pb0: int, pc: int, pd: int, cmp: Comparator<T>, ghost s0: seq<T>)
    returns (pa: int, pb: int, swapped: bool)
    requires hi <= a.Length && Blocks(a[..], lo, hi, pa0, pb0, pc, pd, cmp)
    requires Shuffled(s0, a[..], lo + 1, hi)
    modifies a
    ensures Blocks(a[..], lo, hi, pa, pb, pc, pd, cmp) && pb0 <= pb
    ensures pb <= pc ==> cmp(a[pb], a[lo]) > 0
    ensures Shuffled(s0, a[..], lo + 1, hi)
    ensures !swapped ==> a[..] == old(a[..])
  {
    pa, pb, swapped := pa0, pb0, false;
    while pb <= pc && cmp(a[pb], a[lo]) <= 0
      invariant Blocks(a[..], lo, hi, pa, pb, pc, pd, cmp) && pb0 <= pb
      invariant Shuffled(s0, a[..], lo + 1, hi)
      invariant !swapped ==> a[..] == old(a[..])
    {
      BlocksUp(a[..], lo, hi, pa, pb, pc, pd, cmp);
      if cmp(a[pb], a[lo]) == 0 {
        swapped := true;
        Swap(a, pa, pb, s0, lo + 1, hi);
        pa := pa + 1;
      }
      pb := pb + 1;
    }
  }

  /** `swap(pc, pd)`: an element equal to the pivot goes to the right end. */
  method EqualDown<T(!new)>(a: array<T>, lo: int, hi: int, pa: int, pb: int, pc: int, pd: int, cmp: Comparator<T>, ghost s0: seq<T>)
    requires hi <= a.Length && Blocks(a[..], lo, hi, pa, pb, pc, pd, cmp) && pb <= pc
    requires cmp(a[pc], a[lo]) == 0 && Shuffled(s0, a[..], lo + 1, hi)
    modifies a
    ensures Blocks(a[..], lo, hi, pa, pb, pc - 1, pd - 1, cmp)
    ensures Shuffled(s0, a[..], lo + 1, hi) && (pb < pc ==> a[pb] == old(a[pb]))
  {
    BlocksDown(a[..], lo, hi, pa, pb, pc, pd, cmp);
    assert lo + 1 <= pc <= pd < hi;
    Swap(a, pc, pd, s0, lo + 1, hi);
  }

  /** The loop over `pc`: elements equal to the pivot go to the right end. */
  method ScanDown<T(!new)>(a: array<T>, lo: int, hi: int, pa: int, pb: int, pc0: int, pd0: int, cmp: Comparator<T>, ghost s0: seq<T>)
    returns (pc: int, pd: int, swapped: bool)
    requires hi <= a.Length && Blocks(a[..], lo, hi, pa, pb, pc0, pd0, cmp)
    requires Shuffled(s0, a[..], lo + 1, hi)
    modifies a
    ensures Blocks(a[..], lo, hi, pa, pb, pc, pd, cmp) && pc <= pc0
    ensures pb <= pc ==> cmp(a[pc], a[lo]) < 0 && a[pb] == old(a[pb])
    ensures Shuffled(s0, a[..], lo + 1, hi)
    ensures !swapped ==> a[..] == old(a[..])
  {
    pc, pd, swapped := pc0, pd0, false;
    while pb <= pc && cmp(a[pc], a[lo]) >= 0
      invariant Blocks(a[..], lo, hi, pa, pb, pc, pd, cmp) && pc <= pc0
      invariant pb <= pc ==> a[pb] == old(a[pb])
      invariant Shuffled(s0, a[..], lo + 1, hi)
      invariant !swapped ==> a[..] == old(a[..])
    {
      BlocksDown(a[..], lo, hi, pa, pb, pc, pd, cmp);
      if cmp(a[pc], a[lo]) == 0 {
        swapped := true;
        EqualDown(a, lo, hi, pa, pb, pc, pd, cmp, s0);
        pd := pd - 1;
      }
      pc := pc - 1;
    }
  }

  /** `swap(pb, pc)`: a greater element on the left goes to the right for a lesser one. */
  method Cross<T(!new)>(a: array<T>, lo: int, hi: int, pa: int, pb: int, pc: int, pd: int, cmp: Comparator<T>, ghost s0: seq<T>)
    requires hi <= a.Length && Blocks(a[..], lo, hi, pa, pb, pc, pd, cmp) && pb <= pc
    requires cmp(a[pb], a[lo]) > 0 && cmp(a[pc], a[lo]) < 0 && Shuffled(s0, a[..], lo + 1, hi)
    modifies a
    ensures Blocks(a[..], lo, hi, pa, pb + 1, pc - 1, pd, cmp)
    ensures Shuffled(s0, a[..], lo + 1, hi)
  {
    BlocksCross(a[..], lo, hi, pa, pb, pc, pd, cmp);
    Swap(a, pb, pc, s0, lo + 1, hi);
  }

  /** The partitioning loop. It says whether it has swapped anything. */
  method FourPointers<T(!new)>(a: array<T>, lo: int, hi: int, cmp: Comparator<T>)
    returns (pa: int, pb: int, pc: int, pd: int, swapped: bool)
    requires 0 <= lo && lo + 1 < hi <= a.Length && Preorder(cmp)
    modifies a
    ensures Blocks(a[..], lo, hi, pa, pb, pc, pd, cmp) && pb == pc + 1
    ensures Shuffled(old(a[..]), a[..], lo + 1, hi)
    ensures !swapped ==> a[..] == old(a[..])
  {
    pa, pb, pc, pd, swapped := lo + 1, lo + 1, hi - 1, hi - 1, false;
    while true
      invariant Blocks(a[..], lo, hi, pa, pb, pc, pd, cmp)
      invariant Shuffled(old(a[..]), a[..], lo + 1, hi)
      invariant !swapped ==> a[..] == old(a[..])
      decreases pc - pb
    {
      var up, down;
      pa, pb, up := ScanUp(a, lo, hi, pa, pb, pc, pd, cmp, old(a[..]));
      pc, pd, down := ScanDown(a, lo, hi, pa, pb, pc, pd, cmp, old(a[..]));
      swapped := swapped || up || down;
      if pb > pc {
        break;
      }
      Cross(a, lo, hi, pa, pb, pc, pd, cmp, old(a[..]));
      swapped := true;
      pb, pc := pb + 1, pc - 1;
    }
  }

  lemma {:induction false} BlocksCross<T(!new)>(s: seq<T>, lo: int, hi: int, pa: int, pb: int, pc: int, pd: int, cmp: Comparator<T>)
    requires Blocks(s, lo, hi, pa, pb, pc, pd, cmp) && pb <= pc && cmp(s[pb], s[lo]) > 0 && cmp(s[pc], s[lo]) < 0
    ensures pb < pc && Blocks(Swapped(s, pb, pc), lo, hi, pa, pb + 1, pc - 1, pd, cmp)
  {
  }

  // ----- the two block swaps

  /** The effect of exchanging `n` elements from `i` on with `n` elements from `j` on, one pair at a time. */
  function VecSwapped<T>(s: seq<T>, i: int, j: int, n: nat): (t: seq<T>)
    requires 0 <= i && i + n <= j && j + n <= |s|
    ensures |t| == |s|
  {
    if n == 0 then s else Swapped(VecSwapped(s, i, j, n - 1), i + n - 1, j + n - 1)
  }

  lemma {:induction false} VecSwappedAt<T>(s: seq<T>, i: int, j: int, n: nat, l: int)
    requires 0 <= i && i + n <= j && j + n <= |s| && 0 <= l < |s|
    ensures VecSwapped(s, i, j, n)[l]
         == if i <= l < i + n then s[l - i + j] else if j <= l < j + n then s[l - j + i] else s[l]
  {
    if n > 0 {
      VecSwappedAt(s, i, j, n - 1, l);
      VecSwappedAt(s, i, j, n - 1, i + n - 1);
      VecSwappedAt(s, i, j, n - 1, j + n - 1);
    }
  }

  method VecSwap<T>(a: array<T>, i: int, j: int, n: nat, ghost s0: seq<T>, ghost lo: int, ghost hi: int)
    requires 0 <= lo <= i && i + n <= j && j + n <= hi <= a.Length && Shuffled(s0, a[..], lo, hi)
    modifies a
    ensures a[..] == VecSwapped(old(a[..]), i, j, n)
    ensures Shuffled(s0, a[..], lo, hi)
  {
    var k: nat := 0;
    while k < n
      invariant k <= n
      invariant a[..] == VecSwapped(old(a[..]), i, j, k)
      invariant Shuffled(s0, a[..], lo, hi)
    {
      Swap(a, i + k, j + k, s0, lo, hi);
      k := k + 1;
    }
  }

  function Min(x: int, y: int): int {
    if x < y then x else y
  }

  /** The stretch falls into elements less than, equal to and greater than `p`. */
  ghost predicate Around<T>(s: seq<T>, lo: int, m: int, k: int, hi: int, p: T, cmp: Comparator<T>) {
    && 0 <= lo <= m <= k <= hi <= |s|
    && (forall i :: lo <= i < m ==> cmp(s[i], p) < 0)
    && (forall i :: m <= i < k ==> cmp(s[i], p) == 0)
    && (forall i :: k <= i < hi ==> cmp(s[i], p) > 0)
  }

  /** The first block swap brings the equal elements of the left end next to the lesser ones. */
  lemma {:induction false} LeftSwap<T(!new)>(s: seq<T>, lo: int, pa: int, pb: int, p: T, cmp: Comparator<T>) returns (t: seq<T>)
    requires 0 <= lo < pa <= pb <= |s|
    requires forall i :: lo <= i < pa ==> cmp(s[i], p) == 0
    requires forall i :: pa <= i < pb ==> cmp(s[i], p) < 0
    ensures var r := Min(pa - lo, pb - pa); t == VecSwapped(s, lo, pb - r, r)
    ensures Around(t, lo, lo + (pb - pa), pb, pb, p, cmp)
    ensures forall i :: 0 <= i < lo || pb <= i < |s| ==> t[i] == s[i]
  {
    var r := Min(pa - lo, pb - pa);
    t := VecSwapped(s, lo, pb - r, r);
    forall i | lo <= i < lo + (pb - pa) ensures cmp(t[i], p) < 0 {
      VecSwappedAt(s, lo, pb - r, r, i);
    }
    forall i | lo + (pb - pa) <= i < pb ensures cmp(t[i], p) == 0 {
      VecSwappedAt(s, lo, pb - r, r, i);
    }
    forall i | 0 <= i < lo || pb <= i < |s| ensures t[i] == s[i] {
      VecSwappedAt(s, lo, pb - r, r, i);
    }
  }

  /** The second brings the equal elements of the right end next to the greater ones. */
  lemma {:induction false} RightSwap<T(!new)>(s: seq<T>, pb: int, pd: int, hi: int, p: T, cmp: Comparator<T>) returns (t: seq<T>)
    requires 0 <= pb <= pd + 1 <= hi <= |s|
    requires forall i :: pb <= i <= pd ==> cmp(s[i], p) > 0
    requires forall i :: pd < i < hi ==> cmp(s[i], p) == 0
    ensures var r := Min(pd - pb + 1, hi - pd - 1); t == VecSwapped(s, pb, hi - r, r)
    ensures Around(t, pb, pb, hi - (pd - pb + 1), hi, p, cmp)
    ensures forall i :: 0 <= i < pb || hi <= i < |s| ==> t[i] == s[i]
  {
    var r := Min(pd - pb + 1, hi - pd - 1);
    t := VecSwapped(s, pb, hi - r, r);
    forall i | pb <= i < hi - (pd - pb + 1) ensures cmp(t[i], p) == 0 {
      VecSwappedAt(s, pb, hi - r, r, i);
    }
    forall i | hi - (pd - pb + 1) <= i < hi ensures cmp(t[i], p) > 0 {
      VecSwappedAt(s, pb, hi - r, r, i);
    }
    forall i | 0 <= i < pb || hi <= i < |s| ensures t[i] == s[i] {
      VecSwappedAt(s, pb, hi - r, r, i);
    }
  }

  /** Elements equal to the pivot serve as pivot just as well. */
  lemma {:induction false} AroundParted<T(!new)>(s: seq<T>, lo: int, m: int, k: int, hi: int, p: T, cmp: Comparator<T>)
    requires Preorder(cmp) && Around(s, lo, m, k, hi, p, cmp) && m < k
    ensures Parted(s, lo, hi, m - lo, hi - k, cmp)
  {
    var q := s[m];
    assert cmp(q, p) == 0 && cmp(p, q) == 0;
    forall x ensures (cmp(x, p) < 0 ==> cmp(x, q) < 0) && (cmp(x, p) == 0 ==> cmp(x, q) == 0) && (cmp(x, p) > 0 ==> cmp(x, q) > 0) {
      SameSide(x, p, q, cmp);
    }
  }

  lemma {:induction false} SameSide<T(!new)>(x: T, p: T, q: T, cmp: Comparator<T>)
    requires Preorder(cmp) && cmp(q, p) == 0
    ensures (cmp(x, p) < 0 <==> cmp(x, q) < 0) && (cmp(x, p) > 0 <==> cmp(x, q) > 0)
  {
    assert cmp(p, q) == 0;
    assert cmp(x, p) <= 0 <==> cmp(x, q) <= 0;
    assert cmp(p, x) <= 0 <==> cmp(q, x) <= 0;
  }

  lemma {:induction false} AroundJoin<T(!new)>(t: seq<T>, u: seq<T>, lo: int, m: int, pb: int, k: int, hi: int, p: T, cmp: Comparator<T>)
    requires Around(t, lo, m, pb, pb, p, cmp) && Around(u, pb, pb, k, hi, p, cmp) && |u| == |t|
    requires forall i :: 0 <= i < pb ==> u[i] == t[i]
    ensures Around(u, lo, m, k, hi, p, cmp)
  {
  }

  lemma {:induction false} BlocksLeft<T(!new)>(s: seq<T>, lo: int, hi: int, pa: int, pb: int, pc: int, pd: int, cmp: Comparator<T>)
    returns (t: seq<T>)
    requires Blocks(s, lo, hi, pa, pb, pc, pd, cmp) && pb == pc + 1 && cmp(s[lo], s[lo]) == 0
    ensures var r := Min(pa - lo, pb - pa); t == VecSwapped(s, lo, pb - r, r)
    ensures |t| == |s| && Around(t, lo, lo + (pb - pa), pb, pb, s[lo], cmp)
    ensures forall i :: pc < i <= pd ==> cmp(t[i], s[lo]) > 0
    ensures forall i :: pd < i < hi ==> cmp(t[i], s[lo]) == 0
  {
    t := LeftSwap(s, lo, pa, pb, s[lo], cmp);
  }

  /** What the two block swaps make of the blocks of the partitioning loop. */
  function BlockSwapped<T>(s: seq<T>, lo: int, hi: int, pa: int, pb: int, pc: int, pd: int): seq<T>
    requires 0 <= lo < pa <= pb == pc + 1 && pc <= pd < hi <= |s|
  {
    var r, r' := Min(pa - lo, pb - pa), Min(pd - pc, hi - pd - 1);
    VecSwapped(VecSwapped(s, lo, pb - r, r), pb, hi - r', r')
  }

  lemma {:induction false} BlocksAround<T(!new)>(s: seq<T>, lo: int, hi: int, pa: int, pb: int, pc: int, pd: int, cmp: Comparator<T>)
    requires Blocks(s, lo, hi, pa, pb, pc, pd, cmp) && pb == pc + 1 && cmp(s[lo], s[lo]) == 0
    ensures Around(BlockSwapped(s, lo, hi, pa, pb, pc, pd), lo, lo + (pb - pa), hi - (pd - pc), hi, s[lo], cmp)
  {
    var t := BlocksLeft(s, lo, hi, pa, pb, pc, pd, cmp);
    var u := RightSwap(t, pb, pd, hi, s[lo], cmp);
    AroundJoin(t, u, lo, lo + (pb - pa), pb, hi - (pd - pc), hi, s[lo], cmp);
  }

  method BlockSwaps<T>(a: array<T>, lo: int, hi: int, pa: int, pb: int, pc: int, pd: int, ghost s0: seq<T>)
    requires 0 <= lo < pa <= pb == pc + 1 && pc <= pd < hi <= a.Length && Shuffled(s0, a[..], lo, hi)
    modifies a
    ensures a[..] == BlockSwapped(old(a[..]), lo, hi, pa, pb, pc, pd)
    ensures Shuffled(s0, a[..], lo, hi)
  {
    var r := Min(pa - lo, pb - pa);
    VecSwap(a, lo, pb - r, r, s0, lo, hi);
    r := Min(pd - pc, hi - pd - 1);
    VecSwap(a, pb, hi - r, r, s0, lo, hi);
  }

  lemma {:induction false} BlocksParted<T(!new)>(s: seq<T>, lo: int, hi: int, pa: int, pb: int, pc: int, pd: int, cmp: Comparator<T>)
    requires Blocks(s, lo, hi, pa, pb, pc, pd, cmp) && pb == pc + 1 && Preorder(cmp)
    ensures Parted(BlockSwapped(s, lo, hi, pa, pb, pc, pd), lo, hi, pb - pa, pd - pc, cmp)
  {
    assert cmp(s[lo], s[lo]) == 0;
    BlocksAround(s, lo, hi, pa, pb, pc, pd, cmp);
    AroundParted(BlockSwapped(s, lo, hi, pa, pb, pc, pd), lo, lo + (pb - pa), hi - (pd - pc), hi, s[lo], cmp);
  }

  /** The partition around the pivot, once that is in front. */
  method PartitionAround<T(!new)>(a: array<T>, lo: int, hi: int, cmp: Comparator<T>, ghost s0: seq<T>)
    returns (nl: int, nr: int, swapped: bool)
    requires 0 <= lo && lo + 7 <= hi <= a.Length && Preorder(cmp) && Shuffled(s0, a[..], lo, hi)
    modifies a
    ensures Parted(a[..], lo, hi, nl, nr, cmp)
    ensures Shuffled(s0, a[..], lo, hi)
  {
    ghost var s1 := a[..];
    var pa, pb, pc, pd;
    pa, pb, pc, pd, swapped := FourPointers(a, lo, hi, cmp);
    assert Shuffled(s1, a[..], lo + 1, hi);
    ShuffledInside(s0, s1, a[..], lo + 1, hi, lo, hi);
    BlocksParted(a[..], lo, hi, pa, pb, pc, pd, cmp);
    BlockSwaps(a, lo, hi, pa, pb, pc, pd, s0);
    nl, nr := pb - pa, pd - pc;
  }

  /** One partition of the elements from `lo` up to `hi`. */
  method Partition<T(!new)>(a: array<T>, lo: int, hi: int, cmp: Comparator<T>) returns (nl: int, nr: int, swapped: bool)
    requires 0 <= lo && lo + 7 <= hi <= a.Length && Preorder(cmp)
    modifies a
    ensures Parted(a[..], lo, hi, nl, nr, cmp)
    ensures Shuffled(old(a[..]), a[..], lo, hi)
  {
    var pm := Pivot(a[..], lo, hi - lo, cmp);
    Swap(a, lo, pm, old(a[..]), lo, hi);
    nl, nr, swapped := PartitionAround(a, lo, hi, cmp, old(a[..]));
  }

  // ----- insertion sort, which may be abandoned

  /** Whatever partition `s` shows, `t` shows too. */
  ghost predicate PartsKept<T>(s: seq<T>, t: seq<T>, lo: int, hi: int, cmp: Comparator<T>) {
    forall nl, nr :: Parted(s, lo, hi, nl, nr, cmp) ==> Parted(t, lo, hi, nl, nr, cmp)
  }

  /** Exchanging two neighbours that are out of order moves nothing across a partition. */
  lemma {:induction false} PartedSwap<T(!new)>(s: seq<T>, lo: int, hi: int, nl: int, nr: int, k: int, cmp: Comparator<T>)
    requires Parted(s, lo, hi, nl, nr, cmp) && lo < k < hi && cmp(s[k - 1], s[k]) > 0 && Preorder(cmp)
    ensures Parted(Swapped(s, k, k - 1), lo, hi, nl, nr, cmp)
  {
  }

  lemma {:induction false} PartsKeptSwap<T(!new)>(s0: seq<T>, s: seq<T>, lo: int, hi: int, k: int, cmp: Comparator<T>)
    requires PartsKept(s0, s, lo, hi, cmp) && 0 <= lo < k < hi <= |s| && cmp(s[k - 1], s[k]) > 0 && Preorder(cmp)
    ensures PartsKept(s0, Swapped(s, k, k - 1), lo, hi, cmp)
  {
    forall nl, nr | Parted(s0, lo, hi, nl, nr, cmp) ensures Parted(Swapped(s, k, k - 1), lo, hi, nl, nr, cmp) {
      PartedSwap(s, lo, hi, nl, nr, k, cmp);
    }
  }

  /** The first `m - lo` elements are in order, but for the one at `k`, which may be smaller than those before it. */
  ghost predicate SortedBut<T>(s: seq<T>, lo: int, m: int, k: int, cmp: Comparator<T>)
    requires 0 <= lo <= m <= |s|
  {
    forall i, j :: lo <= i < j < m && j != k ==> cmp(s[i], s[j]) <= 0
  }

  lemma {:induction false} SinkStep<T(!new)>(s: seq<T>, lo: int, m: int, k: int, cmp: Comparator<T>)
    requires 0 <= lo < k < m <= |s| && SortedBut(s, lo, m, k, cmp) && cmp(s[k - 1], s[k]) > 0 && Preorder(cmp)
    ensures SortedBut(Swapped(s, k, k - 1), lo, m, k - 1, cmp)
  {
  }

  lemma {:induction false} SinkDone<T(!new)>(s: seq<T>, lo: int, m: int, k: int, cmp: Comparator<T>)
    requires 0 <= lo <= k < m <= |s| && SortedBut(s, lo, m, k, cmp) && (k == lo || cmp(s[k - 1], s[k]) <= 0) && Preorder(cmp)
    ensures Sorted(s, lo, m, cmp)
  {
    forall i, j | lo <= i < j < m ensures cmp(s[i], s[j]) <= 0 {
      if j == k && i < k - 1 {
        assert cmp(s[i], s[k - 1]) <= 0;
      }
    }
  }

  /** The state of an insertion sort of `s0` that has brought the first `m - lo` elements into order, but for the one at `k`. */
  ghost predicate Sinking<T>(s0: seq<T>, s: seq<T>, lo: int, m: int, hi: int, k: int, cmp: Comparator<T>) {
    && 0 <= lo <= k < m <= hi <= |s|
    && SortedBut(s, lo, m, k, cmp) && Shuffled(s0, s, lo, hi) && PartsKept(s0, s, lo, hi, cmp)
  }

  /** One swap of the inner loop. */
  method SinkOne<T(!new)>(a: array<T>, lo: int, m: int, hi: int, k: int, cmp: Comparator<T>, ghost s0: seq<T>)
    requires Sinking(s0, a[..], lo, m, hi, k, cmp) && lo < k && cmp(a[k - 1], a[k]) > 0 && Preorder(cmp)
    modifies a
    ensures Sinking(s0, a[..], lo, m, hi, k - 1, cmp)
  {
    SinkStep(a[..], lo, m, k, cmp);
    PartsKeptSwap(s0, a[..], lo, hi, k, cmp);
    Swap(a, k, k - 1, s0, lo, hi);
  }

  /** Sink the element before `m` to its place, unless more than `limit` swaps have been made. */
  method Sink<T(!new)>(a: array<T>, lo: int, m: int, hi: int, count0: nat, limit: Option<nat>, cmp: Comparator<T>, ghost s0: seq<T>)
    returns (count: nat, done: bool)
    requires hi <= a.Length && Sinking(s0, a[..], lo, m, hi, m - 1, cmp) && Preorder(cmp)
    modifies a
    ensures Shuffled(s0, a[..], lo, hi) && PartsKept(s0, a[..], lo, hi, cmp)
    ensures done ==> Sorted(a[..], lo, m, cmp)
    ensures limit == None ==> done
  {
    var pl := m - 1;
    count, done := count0, true;
    while pl > lo && cmp(a[pl - 1], a[pl]) > 0
      invariant Sinking(s0, a[..], lo, m, hi, pl, cmp)
    {
      SinkOne(a, lo, m, hi, pl, cmp, s0);
      count, pl := count + 1, pl - 1;
      if limit.Some? && count > limit.value {
        done := false;
        return;
      }
    }
    SinkDone(a[..], lo, m, pl, cmp);
  }

  /** Insertion sort. With a limit it gives up after that many swaps, and every partition there was is still there. */
  method InsertionSort<T(!new)>(a: array<T>, lo: int, hi: int, limit: Option<nat>, cmp: Comparator<T>) returns (done: bool)
    requires 0 <= lo <= hi <= a.Length && Preorder(cmp)
    modifies a
    ensures Shuffled(old(a[..]), a[..], lo, hi) && PartsKept(old(a[..]), a[..], lo, hi, cmp)
    ensures done ==> Sorted(a[..], lo, hi, cmp)
    ensures limit == None ==> done
  {
    var pm, count: nat := lo + 1, 0;
    done := true;
    while pm < hi
      invariant lo + 1 <= pm && Sorted(a[..], lo, if pm < hi then pm else hi, cmp)
      invariant Shuffled(old(a[..]), a[..], lo, hi) && PartsKept(old(a[..]), a[..], lo, hi, cmp)
    {
      count, done := Sink(a, lo, pm + 1, hi, count, limit, cmp, old(a[..]));
      if !done {
        return;
      }
      pm := pm + 1;
    }
  }

  // ----- the whole sort

  /** The elements from `lo` up to `m` are in order and in front of all the others. */
  ghost predicate Front<T>(s: seq<T>, lo: int, m: int, hi: int, cmp: Comparator<T>)
    requires 0 <= lo <= m <= hi <= |s|
  {
    forall i, j :: lo <= i < m && i < j < hi ==> cmp(s[i], s[j]) <= 0
  }

  /** Sorting the left block brings it and the middle block into place. */
  lemma {:induction false} PartedFront<T(!new)>(s: seq<T>, lo: int, m: int, hi: int, nl: int, nr: int, cmp: Comparator<T>)
    requires Preorder(cmp) && 0 <= lo <= m <= hi <= |s| && Front(s, lo, m, hi, cmp)
    requires Parted(s, m, hi, nl, nr, cmp) && Sorted(s, m, m + nl, cmp)
    ensures Front(s, lo, hi - nr, hi, cmp)
  {
    var p := s[m + nl];
    forall i, j | lo <= i < hi - nr && i < j < hi ensures cmp(s[i], s[j]) <= 0 {
      if m <= i && !(j < m + nl) {
        assert cmp(s[i], p) <= 0 && cmp(p, s[j]) <= 0;
      }
    }
  }

  /** A rearrangement inside one block leaves the partition. */
  lemma {:induction false} PartedShuffled<T(!new)>(s: seq<T>, t: seq<T>, lo: int, hi: int, nl: int, nr: int, cmp: Comparator<T>)
    requires Parted(s, lo, hi, nl, nr, cmp) && Shuffled(s, t, lo, lo + nl)
    ensures Parted(t, lo, hi, nl, nr, cmp)
  {
    forall i | lo <= i < lo + nl ensures cmp(t[i], s[lo + nl]) < 0 {
      var j := ShuffledFrom(s, t, lo, lo + nl, i);
    }
  }

  /** A rearrangement behind the front leaves it in front. */
  lemma {:induction false} FrontShuffled<T(!new)>(s: seq<T>, t: seq<T>, lo: int, m: int, hi: int, cmp: Comparator<T>)
    requires 0 <= lo <= m <= hi <= |s| && Front(s, lo, m, hi, cmp) && Shuffled(s, t, m, hi)
    ensures Front(t, lo, m, hi, cmp)
  {
    forall i, j | lo <= i < m && i < j < hi ensures cmp(t[i], t[j]) <= 0 {
      if j >= m {
        var k := ShuffledFrom(s, t, m, hi, j);
      }
    }
  }

  /** One pass from `top`: the stretch is sorted, or partitioned. */
  method Pass<T(!new)>(a: array<T>, lo: int, hi: int, cmp: Comparator<T>) returns (done: bool, nl: int, nr: int)
    requires 0 <= lo <= hi <= a.Length && Preorder(cmp)
    modifies a
    ensures Shuffled(old(a[..]), a[..], lo, hi)
    ensures if done then Sorted(a[..], lo, hi, cmp) else Parted(a[..], lo, hi, nl, nr, cmp)
  {
    nl, nr := 0, 0;
    if hi - lo < 7 {
      done := InsertionSort(a, lo, hi, None, cmp);
      return;
    }
    var swapped;
    nl, nr, swapped := Partition(a, lo, hi, cmp);
    done := false;
    if !swapped {
      ghost var s1 := a[..];
      done := InsertionSort(a, lo, hi, Some(1 + (hi - lo) / 4), cmp);
      ShuffledTrans(old(a[..]), s1, a[..], lo, hi);
    }
  }

  lemma {:induction false} SortedFront<T(!new)>(s: seq<T>, t: seq<T>, base: int, lo: int, hi: int, cmp: Comparator<T>)
    requires 0 <= base <= lo <= hi <= |s| && Front(s, base, lo, hi, cmp) && Shuffled(s, t, lo, hi) && Sorted(t, lo, hi, cmp)
    ensures Sorted(t, base, hi, cmp)
  {
    FrontShuffled(s, t, base, lo, hi, cmp);
  }

  /** The sequential sort: the left block by recursion, the right one by going back to the top. */
  method Sort<T(!new)>(a: array<T>, base: int, n: nat, cmp: Comparator<T>)
    requires 0 <= base && base + n <= a.Length && Preorder(cmp)
    modifies a
    ensures Sorted(a[..], base, base + n, cmp)
    ensures Shuffled(old(a[..]), a[..], base, base + n)
    decreases n, 2
  {
    var lo, hi := base, base + n;
    while true
      invariant base <= lo <= hi && Front(a[..], base, lo, hi, cmp)
      invariant Shuffled(old(a[..]), a[..], base, hi)
      decreases hi - lo
    {
      var over, m := Round(a, base, lo, hi, cmp, n, old(a[..]));
      if over {
        return;
      }
      lo := m;
    }
  }

  /** One round of `Sort`: what is left to sort begins at `m`. */
  method Round<T(!new)>(a: array<T>, base: int, lo: int, hi: int, cmp: Comparator<T>, ghost n: nat, ghost s0: seq<T>)
    returns (over: bool, m: int)
    requires 0 <= base <= lo <= hi <= a.Length && hi - lo <= n && Preorder(cmp)
    requires Front(a[..], base, lo, hi, cmp) && Shuffled(s0, a[..], base, hi)
    modifies a
    ensures Shuffled(s0, a[..], base, hi)
    ensures if over then Sorted(a[..], base, hi, cmp) else lo < m <= hi && Front(a[..], base, m, hi, cmp)
    decreases n, 1
  {
    ghost var s1 := a[..];
    var done, nl, nr := Pass(a, lo, hi, cmp);
    ghost var s2 := a[..];
    ShuffledWiden(s1, s2, lo, hi, base, hi);
    ShuffledTrans(s0, s1, s2, base, hi);
    over, m := true, hi;
    if done {
      SortedFront(s1, s2, base, lo, hi, cmp);
    } else {
      FrontShuffled(s1, s2, base, lo, hi, cmp);
      SortLeft(a, base, lo, hi, nl, nr, cmp, n, s0);
      over, m := nr == 0, hi - nr;
    }
  }

  /** Sorting the left block puts everything up to the right one in front. */
  lemma {:induction false} LeftSorted<T(!new)>(s: seq<T>, t: seq<T>, base: int, lo: int, hi: int, nl: int, nr: int, cmp: Comparator<T>)
    requires 0 <= base <= lo <= hi <= |s| && Preorder(cmp)
    requires Front(s, base, lo, hi, cmp) && Parted(s, lo, hi, nl, nr, cmp)
    requires Shuffled(s, t, lo, lo + nl) && Sorted(t, lo, lo + nl, cmp)
    ensures Front(t, base, hi - nr, hi, cmp)
  {
    ShuffledWiden(s, t, lo, lo + nl, lo, hi);
    FrontShuffled(s, t, base, lo, hi, cmp);
    PartedShuffled(s, t, lo, hi, nl, nr, cmp);
    PartedFront(t, base, lo, hi, nl, nr, cmp);
  }

  /** The recursion on the left block. */
  method SortLeft<T(!new)>(a: array<T>, base: int, lo: int, hi: int, nl: int, nr: int, cmp: Comparator<T>, ghost n: nat, ghost s0: seq<T>)
    requires 0 <= base <= lo <= hi <= a.Length && hi - lo <= n && Preorder(cmp)
    requires Front(a[..], base, lo, hi, cmp) && Parted(a[..], lo, hi, nl, nr, cmp) && Shuffled(s0, a[..], base, hi)
    modifies a
    ensures Shuffled(s0, a[..], base, hi) && Front(a[..], base, hi - nr, hi, cmp)
    decreases n, 0
  {
    ghost var s2 := a[..];
    if nl > 0 {
      Sort(a, lo, nl, cmp);
      ShuffledInside(s0, s2, a[..], lo, lo + nl, base, hi);
    }
    assert Shuffled(s2, a[..], lo, lo + nl);
    assert Sorted(a[..], lo, lo + nl, cmp);
    LeftSorted(s2, a[..], base, lo, hi, nl, nr, cmp);
  }

  // ----- a comparator of the repository

  /** The values of `uint32_t`, and the range of `int`. */
  const WORD: int := 0x1_0000_0000
  const INT_MAX: int := 0x7fff_ffff

  /** `num_compare`: the difference of two `uint32_t`, wrapped, returned as an `int`. */
  function NumCompare(x: int, y: int): int {
    var d := (x - y) % WORD;
    if d > INT_MAX then d - WORD else d
  }

  /** It orders two numbers rightly exactly when their difference fits in an `int`. */
  lemma {:induction false} NumCompareOrders(x: int, y: int)
    requires 0 <= x < WORD && 0 <= y < WORD
    ensures ((NumCompare(x, y) < 0 <==> x < y) && (NumCompare(x, y) > 0 <==> x > y)) <==> -INT_MAX - 1 <= x - y <= INT_MAX
  {
    var d := x - y;
    assert d % WORD == if d >= 0 then d else d + WORD;
  }

  /** The numbers `rand` yields, whose differences all fit. */
  type Small = x: int | 0 <= x <= INT_MAX

  function SmallCompare(x: Small, y: Small): (d: int)
    ensures d == x - y
  {
    assert (x - y) % WORD == if x >= y then x - y else x - y + WORD;
    NumCompare(x, y)
  }

  /** On them it is what `Sort` asks for. */
  lemma {:induction false} SmallComparePreorder()
    ensures Preorder(SmallCompare)
  {
  }

  lemma {:induction false} SortedNumbers(s: seq<Small>, t: seq<Small>)
    requires Sorted(t, 0, |t|, SmallCompare) && Shuffled(s, t, 0, |t|)
    ensures forall i, j :: 0 <= i < j < |t| ==> t[i] <= t[j]
    ensures multiset(t) == multiset(s)
  {
    assert t[0..|t|] == t && s[0..|t|] == s;
    forall i, j | 0 <= i < j < |t| ensures t[i] <= t[j] {
      assert SmallCompare(t[i], t[j]) <= 0;
    }
  }

  /** So the program sorts its numbers. */
  method SortNumbers(a: array<Small>)
    modifies a
    ensures forall i, j :: 0 <= i < j < a.Length ==> a[..][i] <= a[..][j]
    ensures multiset(a[..]) == multiset(old(a[..]))
  {
    SmallComparePreorder();
    Sort(a, 0, a.Length, SmallCompare);
    SortedNumbers(old(a[..]), a[..]);
  }

  /** On all 32-bit numbers it is no ordering: these three go round in a circle. */
  lemma {:induction false} NumCompareCycles()
    ensures NumCompare(0, 0x5000_0000) < 0 && NumCompare(0x5000_0000, 0xa000_0000) < 0 && NumCompare(0xa000_0000, 0) < 0
    ensures !Preorder(NumCompare)
  {
    assert NumCompare(0, 0x5000_0000) <= 0 && NumCompare(0x5000_0000, 0xa000_0000) <= 0;
    assert NumCompare(0, 0xa000_0000) > 0;
  }
}
