/** Sorting one bucket of the fallback block sort by equivalence class: a three-way quicksort. */
module FallbackQSort {
  import opened Bits
  import opened Rearrange
  import opened ThreeWay
  import opened QSortStack

  const SMALL_THRESH := 10
  const STACK_SIZE := 100

  /** Entries lo..hi are in non-decreasing order of their class. */
  ghost predicate Ordered(s: seq<int>, key: seq<int>, lo: int, hi: int)
    requires Indexable(s, |key|, 0, lo, hi + 1)
  {
    forall x, y :: lo <= x < y <= hi ==> key[s[x]] <= key[s[y]]
  }

  /** Entry q is being sunk into the ordered entries after it: it is above everything between i and q. */
  ghost predicate Sinking(s: seq<int>, key: seq<int>, i: int, q: int, hi: int)
    requires Indexable(s, |key|, 0, i, hi + 1)
  {
    && i <= q <= hi
    && (forall x, y :: i <= x < y <= hi && x != q && y != q ==> key[s[x]] <= key[s[y]])
    && (forall x :: i <= x < q ==> key[s[x]] < key[s[q]])
  }

  lemma SinkStep(s: seq<int>, key: seq<int>, i: int, q: int, hi: int)
    requires Indexable(s, |key|, 0, i, hi + 1) && Sinking(s, key, i, q, hi)
    requires q < hi && key[s[q]] > key[s[q + 1]]
    ensures Indexable(Swapped(s, q, q + 1), |key|, 0, i, hi + 1)
    ensures Sinking(Swapped(s, q, q + 1), key, i, q + 1, hi)
  {
  }

  lemma SinkDone(s: seq<int>, key: seq<int>, i: int, q: int, hi: int)
    requires Indexable(s, |key|, 0, i, hi + 1) && Sinking(s, key, i, q, hi)
    requires q == hi || key[s[q]] <= key[s[q + 1]]
    ensures Ordered(s, key, i, hi)
  {
  }

  /** s is the segment under work: start rearranged, and for stride 1 with entry q sinking in order. */
  ghost predicate SinkState(start: seq<int>, s: seq<int>, key: seq<int>, i: int, q: int, hi: int, stride: int) {
    && 0 <= i <= q <= hi < |s|
    && Indexable(s, |key|, 0, i, hi + 1)
    && Rearranged(start, s, i, hi + 1)
    && (stride == 1 ==> Sinking(s, key, i, q, hi))
  }

  lemma SinkStart(s: seq<int>, key: seq<int>, i: int, hi: int, stride: int)
    requires 0 <= i <= hi < |s| && Indexable(s, |key|, 0, i, hi + 1)
    requires stride == 1 ==> Ordered(s, key, i + 1, hi)
    ensures SinkState(s, s, key, i, i, hi, stride)
  {
    RearrangedSame(s, i, hi + 1);
  }

  lemma SinkStateStep(start: seq<int>, s: seq<int>, key: seq<int>, i: int, q: int, hi: int, stride: int)
    requires SinkState(start, s, key, i, q, hi, stride) && 1 <= stride && q + stride <= hi
    requires key[s[q]] > key[s[q + stride]]
    ensures SinkState(start, Swapped(s, q, q + stride), key, i, q + stride, hi, stride)
  {
    hide Rearranged, Swapped;
    var t := Swapped(s, q, q + stride);
    RearrangedSwap(s, i, hi + 1, q, q + stride);
    RearrangedTrans(start, s, t, i, hi + 1);
    IndexableRearranged(s, t, |key|, 0, i, hi + 1);
    if stride == 1 { SinkStep(s, key, i, q, hi); }
  }

  lemma SinkFinish(start: seq<int>, s: seq<int>, key: seq<int>, i: int, q: int, hi: int, stride: int)
    requires SinkState(start, s, key, i, q, hi, stride) && 1 <= stride
    requires q + stride > hi || key[s[q]] <= key[s[q + stride]]
    ensures Rearranged(start, s, i, hi + 1) && Indexable(s, |key|, 0, i, hi + 1)
    ensures stride == 1 ==> Ordered(s, key, i, hi)
  {
    if stride == 1 { SinkDone(s, key, i, q, hi); }
  }

  /** The array holds s, but for a stale entry at q. */
  /**
   * Sinks entry i by steps of the given stride, moving smaller entries down over it.  Throughout, the
   * array is the segment s with a hole where the sinking entry tmp belongs.
   */
  method Sink(fmap: array<int>, eclass: array<int>, i: int, hi: int, stride: int)
    requires fmap != eclass && 0 <= i <= hi < fmap.Length && 1 <= stride
    requires Indexable(fmap[..], eclass.Length, 0, i, hi + 1)
    requires stride == 1 ==> Ordered(fmap[..], eclass[..], i + 1, hi)
    modifies fmap
    ensures Rearranged(old(fmap[..]), fmap[..], i, hi + 1)
    ensures Indexable(fmap[..], eclass.Length, 0, i, hi + 1)
    ensures stride == 1 ==> Ordered(fmap[..], eclass[..], i, hi)
  {
    hide Rearranged, Sinking, Ordered, Swapped;
    ghost var start, key := fmap[..], eclass[..];
    ghost var s := start;
    SinkStart(start, key, i, hi, stride);
    var tmp := fmap[i];
    var ecTmp := eclass[tmp];
    var j := i + stride;
    while j <= hi && ecTmp > eclass[fmap[j]]
      invariant i + stride <= j && SinkState(start, s, key, i, j - stride, hi, stride)
      invariant Holed(fmap[..], s, j - stride) && s[j - stride] == tmp
      decreases hi - j
    {
      SinkStateStep(start, s, key, i, j - stride, hi, stride);
      s := Swapped(s, j - stride, j);
      fmap[j - stride] := fmap[j];
      j := j + stride;
    }
    SinkFinish(start, s, key, i, j - stride, hi, stride);
    fmap[j - stride] := tmp;
    assert fmap[..] == s;
  }

  method SimpleSort(fmap: array<int>, eclass: array<int>, lo: int, hi: int)
    requires fmap != eclass && 0 <= lo <= hi + 1 <= fmap.Length
    requires Indexable(fmap[..], eclass.Length, 0, lo, hi + 1)
    modifies fmap
    ensures Rearranged(old(fmap[..]), fmap[..], lo, hi + 1)
    ensures Indexable(fmap[..], eclass.Length, 0, lo, hi + 1)
    ensures Ordered(fmap[..], eclass[..], lo, hi)
  {
    ghost var start := fmap[..];
    RearrangedSame(start, lo, hi + 1);
    if lo == hi { return; }
    hide Rearranged;
    if hi - lo > 3 {
      var i := hi - 4;
      while i >= lo
        invariant lo - 1 <= i <= hi - 4
        invariant Rearranged(start, fmap[..], lo, hi + 1)
        invariant Indexable(fmap[..], eclass.Length, 0, lo, hi + 1)
      {
        SinkWithin(fmap, eclass, lo, i, hi, 4, start);
        i := i - 1;
      }
    }
    var i := hi - 1;
    while i >= lo
      invariant i <= hi - 1 && (lo <= hi ==> lo - 1 <= i)
      invariant Rearranged(start, fmap[..], lo, hi + 1)
      invariant Indexable(fmap[..], eclass.Length, 0, lo, hi + 1)
      invariant lo <= hi ==> Ordered(fmap[..], eclass[..], i + 1, hi)
    {
      SinkWithin(fmap, eclass, lo, i, hi, 1, start);
      i := i - 1;
    }
  }

  method SinkWithin(fmap: array<int>, eclass: array<int>, ghost lo: int, i: int, hi: int, stride: int, ghost start: seq<int>)
    requires fmap != eclass && 0 <= lo <= i <= hi < fmap.Length && 1 <= stride
    requires Rearranged(start, fmap[..], lo, hi + 1)
    requires Indexable(fmap[..], eclass.Length, 0, lo, hi + 1)
    requires stride == 1 ==> Ordered(fmap[..], eclass[..], i + 1, hi)
    modifies fmap
    ensures Rearranged(start, fmap[..], lo, hi + 1)
    ensures Indexable(fmap[..], eclass.Length, 0, lo, hi + 1)
    ensures stride == 1 ==> Ordered(fmap[..], eclass[..], i, hi)
  {
    hide Rearranged, Ordered;
    ghost var s := fmap[..];
    Sink(fmap, eclass, i, hi, stride);
    RearrangedWiden(s, fmap[..], i, hi + 1, lo, hi + 1);
    RearrangedTrans(start, s, fmap[..], lo, hi + 1);
    IndexableRearranged(s, fmap[..], eclass.Length, 0, lo, hi + 1);
  }

  /** The classes are in order but inside the pending segments. */
  ghost predicate OrderedButPending(s: seq<int>, key: seq<int>, los: seq<int>, his: seq<int>, sp: int, from: int, to: int)
    requires Indexable(s, |key|, 0, from, to + 1) && 0 <= sp <= |los| && sp <= |his|
  {
    forall x, y :: from <= x < y <= to ==> key[s[x]] <= key[s[y]] || Pending(los, his, sp, x, y)
  }

  ghost predicate SortState(start: seq<int>, s: seq<int>, key: seq<int>,
                            los: seq<int>, his: seq<int>, sp: int, from: int, to: int) {
    && 0 <= from <= to + 1 <= |s|
    && |los| == |his| == STACK_SIZE && sp <= 32
    && Indexable(s, |key|, 0, from, to + 1)
    && Rearranged(start, s, from, to + 1)
    && Segments(los, his, sp, from, to)
    && Shallow(los, his, sp, Size(from, to))
    && OrderedButPending(s, key, los, his, sp, from, to)
  }

  lemma SortStart(s: seq<int>, key: seq<int>, los: seq<int>, his: seq<int>, from: int, to: int)
    requires 0 <= from <= to + 1 <= |s| && Indexable(s, |key|, 0, from, to + 1)
    requires |los| == |his| == STACK_SIZE && los[0] == from && his[0] == to
    ensures SortState(s, s, key, los, his, 1, from, to)
  {
    assert Size(los[0], his[0]) * Pow2(0) == Size(from, to);
    RearrangedSame(s, from, to + 1);
  }

  lemma TopSegment(start: seq<int>, s: seq<int>, key: seq<int>,
                   los: seq<int>, his: seq<int>, sp: int, from: int, to: int)
    requires SortState(start, s, key, los, his, sp, from, to) && sp > 0
    ensures from <= los[sp - 1] <= his[sp - 1] + 1 <= to + 1
    ensures Indexable(s, |key|, 0, los[sp - 1], his[sp - 1] + 1)
    ensures 0 <= SortWork(los, his, sp - 1) < SortWork(los, his, sp)
    ensures sp <= 32 && |los| == |his| == STACK_SIZE && to < |s|
  {
  }

  /** How entry x relates to an entry y outside the top segment, after the top segment was rearranged. */
  lemma OutsideTop(s: seq<int>, t: seq<int>, key: seq<int>, los: seq<int>, his: seq<int>, sp: int,
                   from: int, to: int, x: int, y: int)
    requires 0 < sp <= |los| && sp <= |his| && 0 <= from && to < |s|
    requires Segments(los, his, sp, from, to)
    requires Indexable(s, |key|, 0, from, to + 1) && Indexable(t, |key|, 0, from, to + 1)
    requires OrderedButPending(s, key, los, his, sp, from, to)
    requires Rearranged(s, t, los[sp - 1], his[sp - 1] + 1)
    requires from <= x < y <= to && !(los[sp - 1] <= x && y <= his[sp - 1])
    ensures key[t[x]] <= key[t[y]] || Pending(los, his, sp - 1, x, y)
  {
    var lo, hi := los[sp - 1], his[sp - 1];
    var x', y' := x, y;
    if lo <= x <= hi { x' := RearrangedFrom(s, t, lo, hi + 1, x); }
    if lo <= y <= hi { y' := RearrangedFrom(s, t, lo, hi + 1, y); }
    assert t[x] == s[x'] && t[y] == s[y'] && x' < y';
    if Pending(los, his, sp, x', y') {
      var k :| 0 <= k < sp && los[k] <= x' && y' <= his[k];
      assert k != sp - 1;
      assert k < sp - 1 && los[k] <= x && y <= his[k];
    }
  }

  /** The top segment has been sorted in place: drop it. */
  lemma SortedTop(start: seq<int>, s: seq<int>, t: seq<int>, key: seq<int>,
                  los: seq<int>, his: seq<int>, sp: int, from: int, to: int)
    requires SortState(start, s, key, los, his, sp, from, to) && sp > 0
    requires Rearranged(s, t, los[sp - 1], his[sp - 1] + 1)
    requires Indexable(t, |key|, 0, los[sp - 1], his[sp - 1] + 1)
    requires Ordered(t, key, los[sp - 1], his[sp - 1])
    ensures SortState(start, t, key, los, his, sp - 1, from, to)
  {
    RearrangedWiden(s, t, los[sp - 1], his[sp - 1] + 1, from, to + 1);
    RearrangedTrans(start, s, t, from, to + 1);
    IndexableRearranged(s, t, |key|, 0, from, to + 1);
    forall x, y | from <= x < y <= to
      ensures key[t[x]] <= key[t[y]] || Pending(los, his, sp - 1, x, y)
    {
      if !(los[sp - 1] <= x && y <= his[sp - 1]) {
        OutsideTop(s, t, key, los, his, sp, from, to, x, y);
      }
    }
  }

  /** The stacks after replacing the top segment by two segments. */
  ghost predicate Replaced(los: seq<int>, his: seq<int>, los': seq<int>, his': seq<int>, sp: int,
                           a: int, b: int, c: int, e: int) {
    && 0 < sp < |los| == |los'| == |his| == |his'|
    && (forall k :: 0 <= k < sp - 1 ==> los'[k] == los[k] && his'[k] == his[k])
    && los'[sp - 1] == a && his'[sp - 1] == b && los'[sp] == c && his'[sp] == e
  }

  /** The top segment has been partitioned: its two outer parts, larger one first, take its place. */
  lemma SplitTop(start: seq<int>, s: seq<int>, t: seq<int>, key: seq<int>, los: seq<int>, his: seq<int>, sp: int,
                 from: int, to: int, med: int, n: int, m: int, los': seq<int>, his': seq<int>)
    requires SortState(start, s, key, los, his, sp, from, to) && sp > 0
    requires Size(from, to) < 0x8000_0000 && los[sp - 1] <= his[sp - 1]
    requires Rearranged(s, t, los[sp - 1], his[sp - 1] + 1)
    requires Indexable(t, |key|, 0, los[sp - 1], his[sp - 1] + 1)
    requires Parted(t, key, 0, med, los[sp - 1], n, m, his[sp - 1])
    requires
      if n - los[sp - 1] > his[sp - 1] - m
      then Replaced(los, his, los', his', sp, los[sp - 1], n, m, his[sp - 1])
      else Replaced(los, his, los', his', sp, m, his[sp - 1], los[sp - 1], n)
    ensures SortState(start, t, key, los', his', sp + 1, from, to)
    ensures 0 <= SortWork(los', his', sp + 1) < SortWork(los, his, sp)
  {
    hide Rearranged, OrderedButPending, SortWork, Shallow;
    var lo, hi := los[sp - 1], his[sp - 1];
    RearrangedWiden(s, t, lo, hi + 1, from, to + 1);
    RearrangedTrans(start, s, t, from, to + 1);
    IndexableRearranged(s, t, |key|, 0, from, to + 1);
    SplitSegments(los, his, los', his', sp, from, to, n, m);
    SplitShallow(los, his, los', his', sp, Size(from, to));
    SplitWork(los, his, los', his', sp, from, to, n, m);
    SplitOrdered(s, t, key, los, his, sp, from, to, med, n, m, los', his');
  }

  lemma SplitShallow(los: seq<int>, his: seq<int>, los': seq<int>, his': seq<int>, sp: int, total: int)
    requires 0 < sp < |los| == |his| == |los'| == |his'| && Shallow(los, his, sp, total) && total < 0x8000_0000
    requires los[sp - 1] <= his[sp - 1]
    requires Replaced(los, his, los', his', sp, los'[sp - 1], his'[sp - 1], los'[sp], his'[sp])
    requires Size(los'[sp - 1], his'[sp - 1]) + Size(los'[sp], his'[sp]) <= Size(los[sp - 1], his[sp - 1])
    requires 0 <= Size(los'[sp], his'[sp]) <= Size(los'[sp - 1], his'[sp - 1])
    ensures Shallow(los', his', sp + 1, total) && sp <= 31
  {
    var size := Size(los[sp - 1], his[sp - 1]);
    DepthBound(size, sp - 1, total);
    SmallerFits(Size(los'[sp - 1], his'[sp - 1]), size, sp - 1, total);
    HalfFits(Size(los'[sp], his'[sp]), size, sp - 1, total);
  }

  lemma SplitWork(los: seq<int>, his: seq<int>, los': seq<int>, his': seq<int>, sp: int, from: int, to: int, n: int, m: int)
    requires 0 < sp < |los| == |his| && Segments(los, his, sp, from, to)
    requires los[sp - 1] - 1 <= n && n + 1 < m <= his[sp - 1] + 1
    requires
      || Replaced(los, his, los', his', sp, los[sp - 1], n, m, his[sp - 1])
      || Replaced(los, his, los', his', sp, m, his[sp - 1], los[sp - 1], n)
    ensures 0 <= SortWork(los', his', sp + 1) < SortWork(los, his, sp)
  {
    SplitSegments(los, his, los', his', sp, from, to, n, m);
    WorkSame(los, his, los', his', sp - 1);
    assert Work(los', his', sp + 1) == Work(los', his', sp) + 2 * Size(los'[sp], his'[sp]) + 1;
    assert Work(los', his', sp) == Work(los', his', sp - 1) + 2 * Size(los'[sp - 1], his'[sp - 1]) + 1;
  }

  lemma SplitOrdered(s: seq<int>, t: seq<int>, key: seq<int>, los: seq<int>, his: seq<int>, sp: int,
                     from: int, to: int, med: int, n: int, m: int, los': seq<int>, his': seq<int>)
    requires 0 < sp < |los| == |his| && 0 <= from && to < |s| && Segments(los, his, sp, from, to)
    requires Indexable(s, |key|, 0, from, to + 1) && Indexable(t, |key|, 0, from, to + 1)
    requires OrderedButPending(s, key, los, his, sp, from, to)
    requires Rearranged(s, t, los[sp - 1], his[sp - 1] + 1)
    requires Parted(t, key, 0, med, los[sp - 1], n, m, his[sp - 1])
    requires
      || Replaced(los, his, los', his', sp, los[sp - 1], n, m, his[sp - 1])
      || Replaced(los, his, los', his', sp, m, his[sp - 1], los[sp - 1], n)
    ensures OrderedButPending(t, key, los', his', sp + 1, from, to)
  {
    var lo, hi := los[sp - 1], his[sp - 1];
    forall x, y | from <= x < y <= to
      ensures key[t[x]] <= key[t[y]] || Pending(los', his', sp + 1, x, y)
    {
      if lo <= x && y <= hi {
        if y <= n || m <= x {
          PendingAt(los', his', sp + 1, x, y, if los'[sp] <= x && y <= his'[sp] then sp else sp - 1);
        }
      } else {
        OutsideTop(s, t, key, los, his, sp, from, to, x, y);
        if Pending(los, his, sp - 1, x, y) {
          var k :| 0 <= k < sp - 1 && los[k] <= x && y <= his[k];
          PendingAt(los', his', sp + 1, x, y, k);
        }
      }
    }
  }

  lemma PendingAt(los: seq<int>, his: seq<int>, sp: int, x: int, y: int, k: int)
    requires 0 <= k < sp <= |los| && sp <= |his| && los[k] <= x && y <= his[k]
    ensures Pending(los, his, sp, x, y)
  {
  }

  lemma SplitSegments(los: seq<int>, his: seq<int>, los': seq<int>, his': seq<int>, sp: int,
                      from: int, to: int, n: int, m: int)
    requires 0 < sp < |los| == |his| && Segments(los, his, sp, from, to)
    requires los[sp - 1] - 1 <= n && n + 1 < m <= his[sp - 1] + 1
    requires
      || Replaced(los, his, los', his', sp, los[sp - 1], n, m, his[sp - 1])
      || Replaced(los, his, los', his', sp, m, his[sp - 1], los[sp - 1], n)
    ensures Segments(los', his', sp + 1, from, to)
  {
  }

  /**
   * Sorts entries loSt..hiSt of fmap by class, in place, without recursion.  The explicit stack of
   * pending segments never comes near its fixed size, for any segment a 32-bit index can describe.
   */
  method QSort3(fmap: array<int>, eclass: array<int>, loSt: int, hiSt: int)
    requires fmap != eclass && 0 <= loSt <= hiSt + 1 <= fmap.Length
    requires Size(loSt, hiSt) < 0x8000_0000
    requires Indexable(fmap[..], eclass.Length, 0, loSt, hiSt + 1)
    modifies fmap
    ensures Rearranged(old(fmap[..]), fmap[..], loSt, hiSt + 1)
    ensures Indexable(fmap[..], eclass.Length, 0, loSt, hiSt + 1)
    ensures Ordered(fmap[..], eclass[..], loSt, hiSt)
  {
    hide Rearranged, SortState, Parted, Ordered, Indexable, SortWork;
    ghost var start, key := fmap[..], eclass[..];
    var stackLo, stackHi := new int[STACK_SIZE], new int[STACK_SIZE];
    var r := 0;
    var sp := 1;
    stackLo[0], stackHi[0] := loSt, hiSt;
    SortStart(start, key, stackLo[..], stackHi[..], loSt, hiSt);
    while sp > 0
      invariant 0 <= sp
      invariant SortState(start, fmap[..], key, stackLo[..], stackHi[..], sp, loSt, hiSt)
      decreases SortWork(stackLo[..], stackHi[..], sp)
    {
      TopSegment(start, fmap[..], key, stackLo[..], stackHi[..], sp, loSt, hiSt);
      assert sp < STACK_SIZE - 1;  // assertion 1004
      ghost var s, los, his := fmap[..], stackLo[..], stackHi[..];
      var lo, hi := stackLo[sp - 1], stackHi[sp - 1];
      if hi - lo < SMALL_THRESH {
        SimpleSort(fmap, eclass, lo, hi);
        SortedTop(start, s, fmap[..], key, los, his, sp, loSt, hiSt);
        sp := sp - 1;
      } else {
        r := (r * 7621 + 1) % 32768;
        var allEqual, n, m, med := PartitionRandom(fmap, eclass, lo, hi, r % 3);
        if allEqual {
          EqualOrdered(fmap[..], key, med, lo, hi);
          SortedTop(start, s, fmap[..], key, los, his, sp, loSt, hiSt);
          sp := sp - 1;
        } else {
          if n - lo > hi - m {
            stackLo[sp - 1], stackHi[sp - 1], stackLo[sp], stackHi[sp] := lo, n, m, hi;
          } else {
            stackLo[sp - 1], stackHi[sp - 1], stackLo[sp], stackHi[sp] := m, hi, lo, n;
          }
          SplitTop(start, s, fmap[..], key, los, his, sp, loSt, hiSt, med, n, m, stackLo[..], stackHi[..]);
          sp := sp + 1;
        }
      }
    }
    AllSorted(start, fmap[..], key, stackLo[..], stackHi[..], loSt, hiSt);
  }

  ghost function SortWork(los: seq<int>, his: seq<int>, sp: int): int {
    if 0 <= sp <= |los| && sp <= |his| && forall k :: 0 <= k < sp ==> los[k] <= his[k] + 1
    then Work(los, his, sp) else 0
  }

  lemma EqualOrdered(s: seq<int>, key: seq<int>, med: int, lo: int, hi: int)
    requires Indexable(s, |key|, 0, lo, hi + 1) && Parted(s, key, 0, med, lo, lo - 1, hi + 1, hi)
    ensures Ordered(s, key, lo, hi)
  {
  }

  lemma AllSorted(start: seq<int>, s: seq<int>, key: seq<int>, los: seq<int>, his: seq<int>, from: int, to: int)
    requires SortState(start, s, key, los, his, 0, from, to)
    ensures Rearranged(start, s, from, to + 1) && Indexable(s, |key|, 0, from, to + 1)
    ensures Ordered(s, key, from, to)
  {
  }

  /** Partitions around the class of the first, middle or last entry. */
  method PartitionRandom(fmap: array<int>, eclass: array<int>, lo: int, hi: int, r3: int)
    returns (allEqual: bool, n: int, m: int, med: int)
    requires fmap != eclass && 0 <= lo <= hi < fmap.Length
    requires Indexable(fmap[..], eclass.Length, 0, lo, hi + 1)
    modifies fmap
    ensures Rearranged(old(fmap[..]), fmap[..], lo, hi + 1)
    ensures Indexable(fmap[..], eclass.Length, 0, lo, hi + 1)
    ensures allEqual <==> n == lo - 1 && m == hi + 1
    ensures Parted(fmap[..], eclass[..], 0, med, lo, n, m, hi)
  {
    hide Rearranged, Parted;
    var pivot := if r3 == 0 then lo else if r3 == 1 then (lo + hi) / 2 else hi;
    med := eclass[fmap[pivot]];
    assert eclass[fmap[pivot] + 0] == med;
    allEqual, n, m := Partition(fmap, eclass, 0, lo, hi, med);
  }
}
