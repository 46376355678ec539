/** The three-way partition shared, step for step, by both quicksorts of the block sort. */
module ThreeWay {
  import opened Rearrange

  /** The key that entry v is partitioned on: a table entry d places after v. */
  ghost predicate Indexable(ptr: seq<int>, len: int, d: nat, lo: int, hi: int) {
    0 <= lo && hi <= |ptr| && forall x :: lo <= x < hi ==> 0 <= ptr[x] && ptr[x] + d < len
  }

  lemma IndexableRearranged(s: seq<int>, t: seq<int>, len: int, d: nat, lo: int, hi: int)
    requires Indexable(s, len, d, lo, hi) && Rearranged(s, t, lo, hi)
    ensures Indexable(t, len, d, lo, hi)
  {
    forall x | lo <= x < hi ensures 0 <= t[x] && t[x] + d < len {
      var y := RearrangedFrom(s, t, lo, hi, x);
    }
  }

  method Swap(ptr: array<int>, p: int, q: int, ghost lo: int, ghost hi: int)
    requires 0 <= lo <= p < hi <= ptr.Length && lo <= q < hi
    modifies ptr
    ensures ptr[..] == Swapped(old(ptr[..]), p, q)
    ensures Rearranged(old(ptr[..]), ptr[..], lo, hi)
  {
    RearrangedSwap(ptr[..], lo, hi, p, q);
    ptr[p], ptr[q] := ptr[q], ptr[p];
  }

  /** Exchanges two disjoint runs of n entries. */
  method SwapRuns(ptr: array<int>, p1: int, p2: int, n: int, ghost lo: int, ghost hi: int)
    requires 0 <= lo <= p1 && p1 + n <= p2 && p2 + n <= hi <= ptr.Length && 0 <= n
    modifies ptr
    ensures forall x :: p1 <= x < p1 + n ==> ptr[x] == old(ptr[x - p1 + p2])
    ensures forall x :: p2 <= x < p2 + n ==> ptr[x] == old(ptr[x - p2 + p1])
    ensures forall x :: 0 <= x < ptr.Length && !(p1 <= x < p1 + n) && !(p2 <= x < p2 + n) ==> ptr[x] == old(ptr[x])
    ensures Rearranged(old(ptr[..]), ptr[..], lo, hi)
  {
    var k := 0;
    while k < n
      invariant 0 <= k <= n
      invariant forall x :: p1 <= x < p1 + k ==> ptr[x] == old(ptr[x - p1 + p2])
      invariant forall x :: p2 <= x < p2 + k ==> ptr[x] == old(ptr[x - p2 + p1])
      invariant forall x :: 0 <= x < ptr.Length && !(p1 <= x < p1 + k) && !(p2 <= x < p2 + k) ==> ptr[x] == old(ptr[x])
      invariant Rearranged(old(ptr[..]), ptr[..], lo, hi)
    {
      ghost var before := ptr[..];
      Swap(ptr, p1 + k, p2 + k, lo, hi);
      RearrangedTrans(old(ptr[..]), before, ptr[..], lo, hi);
      k := k + 1;
    }
  }

  /** The cursors of a partition in progress stay in order and every entry of the segment has a key. */
  ghost predicate Cursors(s: seq<int>, len: int, d: nat,
                          lo: int, lt: int, unLo: int, unHi: int, gt: int, hi: int) {
    && 0 <= lo <= lt <= unLo <= unHi + 1 <= gt + 1 <= hi + 1 <= |s|
    && Indexable(s, len, d, lo, hi + 1)
  }

  lemma CursorsOrder(s: seq<int>, len: int, d: nat, lo: int, lt: int, unLo: int, unHi: int, gt: int, hi: int)
    requires Cursors(s, len, d, lo, lt, unLo, unHi, gt, hi)
    ensures 0 <= lo <= lt <= unLo <= unHi + 1 <= gt + 1 <= hi + 1 <= |s|
    ensures Indexable(s, len, d, lo, hi + 1)
  {
  }

  /** Mid-partition: [lo, lt) equal, [lt, unLo) smaller, [unLo, unHi] unread, (unHi, gt] larger, (gt, hi] equal. */
  ghost predicate Split(start: seq<int>, s: seq<int>, key: seq<int>, d: nat, med: int,
                        lo: int, lt: int, unLo: int, unHi: int, gt: int, hi: int)
    requires Cursors(s, |key|, d, lo, lt, unLo, unHi, gt, hi)
  {
    && Rearranged(start, s, lo, hi + 1)
    && (forall x :: lo <= x < lt ==> key[s[x] + d] == med)
    && (forall x :: lt <= x < unLo ==> key[s[x] + d] < med)
    && (forall x :: unHi < x <= gt ==> key[s[x] + d] > med)
    && (forall x :: gt < x <= hi ==> key[s[x] + d] == med)
  }

  lemma SplitStart(s: seq<int>, key: seq<int>, d: nat, med: int, lo: int, hi: int)
    requires 0 <= lo <= hi < |s| && Indexable(s, |key|, d, lo, hi + 1)
    ensures Cursors(s, |key|, d, lo, lo, lo, hi, hi, hi)
    ensures Split(s, s, key, d, med, lo, lo, lo, hi, hi, hi)
  {
  }

  lemma SplitLow(start: seq<int>, s: seq<int>, key: seq<int>, d: nat, med: int,
                 lo: int, lt: int, unLo: int, unHi: int, gt: int, hi: int)
    requires Cursors(s, |key|, d, lo, lt, unLo, unHi, gt, hi) && unLo <= unHi
    requires Split(start, s, key, d, med, lo, lt, unLo, unHi, gt, hi)
    ensures key[s[unLo] + d] < med ==> Split(start, s, key, d, med, lo, lt, unLo + 1, unHi, gt, hi)
    ensures key[s[unLo] + d] == med ==>
              var t := Swapped(s, unLo, lt);
              && Cursors(t, |key|, d, lo, lt + 1, unLo + 1, unHi, gt, hi)
              && Split(start, t, key, d, med, lo, lt + 1, unLo + 1, unHi, gt, hi)
  {
    hide Rearranged, Swapped;
    RearrangedSwap(s, lo, hi + 1, unLo, lt);
    RearrangedTrans(start, s, Swapped(s, unLo, lt), lo, hi + 1);
  }

  lemma SplitHigh(start: seq<int>, s: seq<int>, key: seq<int>, d: nat, med: int,
                  lo: int, lt: int, unLo: int, unHi: int, gt: int, hi: int)
    requires Cursors(s, |key|, d, lo, lt, unLo, unHi, gt, hi) && unLo <= unHi
    requires Split(start, s, key, d, med, lo, lt, unLo, unHi, gt, hi)
    ensures key[s[unHi] + d] > med ==> Split(start, s, key, d, med, lo, lt, unLo, unHi - 1, gt, hi)
    ensures key[s[unHi] + d] == med ==>
              var t := Swapped(s, unHi, gt);
              && Cursors(t, |key|, d, lo, lt, unLo, unHi - 1, gt - 1, hi)
              && Split(start, t, key, d, med, lo, lt, unLo, unHi - 1, gt - 1, hi)
  {
    hide Rearranged, Swapped;
    RearrangedSwap(s, lo, hi + 1, unHi, gt);
    RearrangedTrans(start, s, Swapped(s, unHi, gt), lo, hi + 1);
  }

  lemma SplitCross(start: seq<int>, s: seq<int>, key: seq<int>, d: nat, med: int,
                   lo: int, lt: int, unLo: int, unHi: int, gt: int, hi: int)
    requires Cursors(s, |key|, d, lo, lt, unLo, unHi, gt, hi) && unLo <= unHi
    requires Split(start, s, key, d, med, lo, lt, unLo, unHi, gt, hi)
    requires key[s[unLo] + d] > med && key[s[unHi] + d] < med
    ensures var t := Swapped(s, unLo, unHi);
            && Cursors(t, |key|, d, lo, lt, unLo + 1, unHi - 1, gt, hi)
            && Split(start, t, key, d, med, lo, lt, unLo + 1, unHi - 1, gt, hi)
  {
    hide Rearranged, Swapped;
    RearrangedSwap(s, lo, hi + 1, unLo, unHi);
    RearrangedTrans(start, s, Swapped(s, unLo, unHi), lo, hi + 1);
  }

  method ScanUp(ptr: array<int>, key: array<int>, d: nat, med: int, lo: int, lt0: int, unLo0: int,
                unHi: int, ghost gt: int, ghost hi: int, ghost start: seq<int>) returns (lt: int, unLo: int)
    requires ptr != key && Cursors(ptr[..], key.Length, d, lo, lt0, unLo0, unHi, gt, hi)
    requires Split(start, ptr[..], key[..], d, med, lo, lt0, unLo0, unHi, gt, hi)
    modifies ptr
    ensures Cursors(ptr[..], key.Length, d, lo, lt, unLo, unHi, gt, hi)
    ensures Split(start, ptr[..], key[..], d, med, lo, lt, unLo, unHi, gt, hi)
    ensures unLo >= unLo0 && (unLo <= unHi ==> key[ptr[unLo] + d] > med)
  {
    hide Split, Rearranged, Swapped;
    lt, unLo := lt0, unLo0;
    while unLo <= unHi && key[ptr[unLo] + d] <= med
      invariant unLo >= unLo0 && Cursors(ptr[..], key.Length, d, lo, lt, unLo, unHi, gt, hi)
      invariant Split(start, ptr[..], key[..], d, med, lo, lt, unLo, unHi, gt, hi)
      decreases unHi - unLo
    {
      SplitLow(start, ptr[..], key[..], d, med, lo, lt, unLo, unHi, gt, hi);
      if key[ptr[unLo] + d] == med {
        Swap(ptr, unLo, lt, lo, hi + 1);
        lt := lt + 1;
      }
      unLo := unLo + 1;
    }
  }

  method ScanDown(ptr: array<int>, key: array<int>, d: nat, med: int, ghost lo: int, ghost lt: int, unLo: int,
                  unHi0: int, gt0: int, hi: int, ghost start: seq<int>) returns (unHi: int, gt: int)
    requires ptr != key && Cursors(ptr[..], key.Length, d, lo, lt, unLo, unHi0, gt0, hi)
    requires Split(start, ptr[..], key[..], d, med, lo, lt, unLo, unHi0, gt0, hi)
    requires unLo <= unHi0 ==> key[ptr[unLo] + d] > med
    modifies ptr
    ensures Cursors(ptr[..], key.Length, d, lo, lt, unLo, unHi, gt, hi)
    ensures Split(start, ptr[..], key[..], d, med, lo, lt, unLo, unHi, gt, hi)
    ensures unHi <= unHi0
    ensures unLo <= unHi ==> 0 <= unLo && unHi < ptr.Length && 0 <= ptr[unLo] && ptr[unLo] + d < key.Length
                             && 0 <= ptr[unHi] && ptr[unHi] + d < key.Length
    ensures unLo <= unHi ==> key[ptr[unLo] + d] > med && key[ptr[unHi] + d] < med
  {
    hide Split, Rearranged, Swapped;
    unHi, gt := unHi0, gt0;
    while unLo <= unHi && key[ptr[unHi] + d] >= med
      invariant unHi <= unHi0 && Cursors(ptr[..], key.Length, d, lo, lt, unLo, unHi, gt, hi)
      invariant Split(start, ptr[..], key[..], d, med, lo, lt, unLo, unHi, gt, hi)
      invariant unLo <= unHi ==> key[ptr[unLo] + d] > med
      decreases unHi - unLo
    {
      SplitHigh(start, ptr[..], key[..], d, med, lo, lt, unLo, unHi, gt, hi);
      if key[ptr[unHi] + d] == med {
        Swap(ptr, unHi, gt, lo, hi + 1);
        gt := gt - 1;
      }
      unHi := unHi - 1;
    }
  }

  /**
   * Partitions [lo, hi] around med: smaller keys in [lo, n], equal keys in (n, m), larger keys in
   * [m, hi].  Equal keys are first collected at both ends, then swapped into the middle.
   */
  method Partition(ptr: array<int>, key: array<int>, d: nat, lo: int, hi: int, med: int)
    returns (allEqual: bool, n: int, m: int)
    requires ptr != key && 0 <= lo <= hi < ptr.Length
    requires Indexable(ptr[..], key.Length, d, lo, hi + 1)
    requires exists x :: lo <= x <= hi && key[ptr[x] + d] == med
    modifies ptr
    ensures Rearranged(old(ptr[..]), ptr[..], lo, hi + 1)
    ensures Indexable(ptr[..], key.Length, d, lo, hi + 1)
    ensures allEqual <==> n == lo - 1 && m == hi + 1
    ensures Parted(ptr[..], key[..], d, med, lo, n, m, hi)
  {
    hide Split, Rearranged, Parted, Indexable, Swapped, Cursors;
    var unLo, ltLo, unHi, gtHi := lo, lo, hi, hi;
    ghost var start := ptr[..];
    SplitStart(start, key[..], d, med, lo, hi);
    while true
      invariant lo <= unLo && unHi <= hi
      invariant Cursors(ptr[..], key.Length, d, lo, ltLo, unLo, unHi, gtHi, hi)
      invariant Split(start, ptr[..], key[..], d, med, lo, ltLo, unLo, unHi, gtHi, hi)
      decreases unHi - unLo
    {
      ltLo, unLo := ScanUp(ptr, key, d, med, lo, ltLo, unLo, unHi, gtHi, hi, start);
      unHi, gtHi := ScanDown(ptr, key, d, med, lo, ltLo, unLo, unHi, gtHi, hi, start);
      CursorsOrder(ptr[..], key.Length, d, lo, ltLo, unLo, unHi, gtHi, hi);
      if unLo > unHi { break; }
      SplitCross(start, ptr[..], key[..], d, med, lo, ltLo, unLo, unHi, gtHi, hi);
      Swap(ptr, unLo, unHi, lo, hi + 1);
      unLo, unHi := unLo + 1, unHi - 1;
    }
    if gtHi < ltLo {
      SplitAllEqual(start, ptr[..], key[..], d, med, lo, ltLo, unLo, unHi, gtHi, hi);
      return true, lo - 1, hi + 1;
    }
    n, m := Gather(ptr, key, d, lo, hi, med, ltLo, unLo, unHi, gtHi, start);
    return false, n, m;
  }

  /** The finished partition: smaller in [lo, n], equal in (n, m), which is not empty, larger in [m, hi]. */
  ghost predicate Parted(s: seq<int>, key: seq<int>, d: nat, med: int, lo: int, n: int, m: int, hi: int)
    requires Indexable(s, |key|, d, lo, hi + 1)
  {
    && lo - 1 <= n && n + 1 < m <= hi + 1
    && (forall x :: lo <= x <= n ==> key[s[x] + d] < med)
    && (forall x :: n < x < m ==> key[s[x] + d] == med)
    && (forall x :: m <= x <= hi ==> key[s[x] + d] > med)
  }

  lemma SplitAllEqual(start: seq<int>, s: seq<int>, key: seq<int>, d: nat, med: int,
                      lo: int, lt: int, unLo: int, unHi: int, gt: int, hi: int)
    requires Cursors(s, |key|, d, lo, lt, unLo, unHi, gt, hi) && unHi < unLo && gt < lt && lo <= hi
    requires Split(start, s, key, d, med, lo, lt, unLo, unHi, gt, hi)
    ensures Parted(s, key, d, med, lo, lo - 1, hi + 1, hi)
    ensures Rearranged(start, s, lo, hi + 1)
  {
  }

  /** Left side done: smaller in [lo, n], equal in (n, unLo), larger in [unLo, gt], equal in (gt, hi]. */
  ghost predicate HalfParted(start: seq<int>, s: seq<int>, key: seq<int>, d: nat, med: int,
                             lo: int, n: int, unLo: int, gt: int, hi: int) {
    && 0 <= lo <= n + 1 <= unLo <= gt + 1 <= hi + 1 <= |s|
    && Indexable(s, |key|, d, lo, hi + 1)
    && Rearranged(start, s, lo, hi + 1)
    && (forall x :: lo <= x <= n ==> key[s[x] + d] < med)
    && (forall x :: n < x < unLo ==> key[s[x] + d] == med)
    && (forall x :: unLo <= x <= gt ==> key[s[x] + d] > med)
    && (forall x :: gt < x <= hi ==> key[s[x] + d] == med)
  }

  lemma HalfShape(start: seq<int>, s: seq<int>, key: seq<int>, d: nat, med: int, lo: int, n: int, unLo: int, gt: int, hi: int)
    requires HalfParted(start, s, key, d, med, lo, n, unLo, gt, hi)
    ensures 0 <= lo <= n + 1 <= unLo <= gt + 1 <= hi + 1 <= |s|
    ensures Indexable(s, |key|, d, lo, hi + 1) && Rearranged(start, s, lo, hi + 1)
  {
    hide Rearranged, Indexable;
  }

  method Gather(ptr: array<int>, key: array<int>, d: nat, lo: int, hi: int, med: int,
                lt: int, unLo: int, unHi: int, gt: int, ghost start: seq<int>) returns (n: int, m: int)
    requires ptr != key && Cursors(ptr[..], key.Length, d, lo, lt, unLo, unHi, gt, hi)
    requires Split(start, ptr[..], key[..], d, med, lo, lt, unLo, unHi, gt, hi)
    requires unHi == unLo - 1 && gt >= lt
    requires Indexable(start, key.Length, d, lo, hi + 1)
    requires exists x :: lo <= x <= hi && key[start[x] + d] == med
    modifies ptr
    ensures Rearranged(start, ptr[..], lo, hi + 1)
    ensures Indexable(ptr[..], key.Length, d, lo, hi + 1)
    ensures n == lo + unLo - lt - 1 && m == hi - (gt - unHi) + 1
    ensures Parted(ptr[..], key[..], d, med, lo, n, m, hi) && (n >= lo || m <= hi)
  {
    hide Split, HalfParted, Rearranged;
    MoveInward(ptr, key, d, lo, hi, med, lt, unLo, gt, start);
    MoveOutward(ptr, key, d, lo, hi, med, lo + unLo - lt - 1, unLo, gt, start);
    n, m := lo + unLo - lt - 1, hi - (gt - unHi) + 1;
  }

  lemma MedianKept(s: seq<int>, t: seq<int>, key: seq<int>, d: nat, lo: int, hi: int, med: int)
    requires Rearranged(s, t, lo, hi + 1)
    requires Indexable(s, |key|, d, lo, hi + 1) && Indexable(t, |key|, d, lo, hi + 1)
    requires exists x :: lo <= x <= hi && key[s[x] + d] == med
    ensures exists x :: lo <= x <= hi && key[t[x] + d] == med
  {
    var x :| lo <= x <= hi && key[s[x] + d] == med;
    var y := RearrangedFrom(t, s, lo, hi + 1, x);
    assert key[t[y] + d] == med;
  }

  function Min(a: int, b: int): int {
    if a < b then a else b
  }

  /** Swaps the equal keys collected on the left behind the smaller ones. */
  method MoveInward(ptr: array<int>, key: array<int>, d: nat, lo: int, ghost hi: int, ghost med: int,
                    lt: int, unLo: int, ghost gt: int, ghost start: seq<int>)
    requires ptr != key && Cursors(ptr[..], key.Length, d, lo, lt, unLo, unLo - 1, gt, hi)
    requires Split(start, ptr[..], key[..], d, med, lo, lt, unLo, unLo - 1, gt, hi)
    modifies ptr
    ensures HalfParted(start, ptr[..], key[..], d, med, lo, lo + unLo - lt - 1, unLo, gt, hi)
  {
    ghost var s := ptr[..];
    var n := Min(lt - lo, unLo - lt);
    hide Rearranged;
    SwapRuns(ptr, lo, unLo - n, n, lo, hi + 1);
    RearrangedTrans(start, s, ptr[..], lo, hi + 1);
    IndexableRearranged(s, ptr[..], key.Length, d, lo, hi + 1);
  }

  /** Swaps the equal keys collected on the right before the larger ones. */
  method MoveOutward(ptr: array<int>, key: array<int>, d: nat, ghost lo: int, hi: int, ghost med: int,
                     ghost n: int, unLo: int, gt: int, ghost start: seq<int>)
    requires ptr != key && HalfParted(start, ptr[..], key[..], d, med, lo, n, unLo, gt, hi)
    requires Indexable(start, key.Length, d, lo, hi + 1)
    requires exists x :: lo <= x <= hi && key[start[x] + d] == med
    modifies ptr
    ensures Rearranged(start, ptr[..], lo, hi + 1)
    ensures Indexable(ptr[..], key.Length, d, lo, hi + 1)
    ensures Parted(ptr[..], key[..], d, med, lo, n, hi - (gt - unLo), hi)
  {
    hide Rearranged, Parted, HalfParted;
    ghost var s := ptr[..];
    HalfShape(start, s, key[..], d, med, lo, n, unLo, gt, hi);
    var m := Min(hi - gt, gt - unLo + 1);
    SwapRuns(ptr, unLo, hi - m + 1, m, lo, hi + 1);
    RearrangedTrans(start, s, ptr[..], lo, hi + 1);
    IndexableRearranged(s, ptr[..], key.Length, d, lo, hi + 1);
    MedianKept(start, ptr[..], key[..], d, lo, hi, med);
    OutwardParted(start, s, ptr[..], key[..], d, med, lo, n, unLo, gt, hi, m);
  }

  /** The larger keys and the equal keys right of them have changed places. */
  lemma OutwardParted(start: seq<int>, s: seq<int>, t: seq<int>, key: seq<int>, d: nat, med: int,
                      lo: int, n: int, unLo: int, gt: int, hi: int, m: int)
    requires HalfParted(start, s, key, d, med, lo, n, unLo, gt, hi) && m == Min(hi - gt, gt - unLo + 1)
    requires |t| == |s| && Indexable(t, |key|, d, lo, hi + 1)
    requires forall x :: unLo <= x < unLo + m ==> t[x] == s[x - unLo + (hi - m + 1)]
    requires forall x :: hi - m < x <= hi ==> t[x] == s[x - (hi - m + 1) + unLo]
    requires forall x :: 0 <= x < |t| && !(unLo <= x < unLo + m) && !(hi - m < x <= hi) ==> t[x] == s[x]
    requires exists x :: lo <= x <= hi && key[t[x] + d] == med
    ensures Parted(t, key, d, med, lo, n, hi - (gt - unLo), hi)
  {
    hide Rearranged;
  }
}
