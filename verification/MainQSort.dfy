/** Sorting one small bucket of the main block sort: Shell sort for small or deep segments, string quicksort above. */
module MainQSort {
  import opened Rotations
  import opened Bits
  import opened Rearrange
  import opened ThreeWay
  import opened QSortStack
  import opened MainCompare

  const SMALL_THRESH := 20
  const DEPTH_THRESH := 14
  const STACK_SIZE := 100
  const MAX_BLOCK := 900000

  /** Knuth's increments. */
  const INCS: seq<int> := [1, 4, 13, 40, 121, 364, 1093, 3280, 9841, 29524, 88573, 265720, 797161, 2391484]

  /** The rotations in rows lo..hi agree on their first d bytes. */
  ghost predicate CommonPrefix(b: seq<byte>, s: seq<int>, lo: int, hi: int, d: nat) {
    && 0 <= lo && hi < |s|
    && (forall x :: lo <= x <= hi ==> 0 <= s[x] < |b|)
    && forall x, y :: lo <= x <= hi && lo <= y <= hi ==> Cmp(b, s[x], s[y], d) == 0
  }

  /** Rows lo..hi are in rotation order. */
  ghost predicate InOrder(b: seq<byte>, s: seq<int>, lo: int, hi: int)
    requires 0 <= lo && hi < |s| && forall x :: lo <= x <= hi ==> 0 <= s[x] < |b|
  {
    forall x, y :: lo <= x < y <= hi ==> Cmp(b, s[x], s[y], |b|) <= 0
  }

  lemma CommonPrefixRearranged(b: seq<byte>, s: seq<int>, t: seq<int>, lo: int, hi: int, d: nat)
    requires CommonPrefix(b, s, lo, hi, d) && lo <= hi + 1 && Rearranged(s, t, lo, hi + 1)
    ensures CommonPrefix(b, t, lo, hi, d)
  {
    hide Cmp;
    forall x | lo <= x <= hi ensures 0 <= t[x] < |b| {
      var y := RearrangedFrom(s, t, lo, hi + 1, x);
    }
    forall x, y | lo <= x <= hi && lo <= y <= hi ensures Cmp(b, t[x], t[y], d) == 0 {
      var x' := RearrangedFrom(s, t, lo, hi + 1, x);
      var y' := RearrangedFrom(s, t, lo, hi + 1, y);
    }
  }

  /** Rotations that agree on d bytes compare like their continuations. */
  lemma CompareDeeper(b: seq<byte>, v: int, w: int, d: nat, gt: bool)
    requires 0 <= v < |b| && 0 <= w < |b| && Cmp(b, v, w, d) == 0
    requires v + d < 2 * |b| && w + d < 2 * |b| && d <= |b|
    requires Answers(b, Wrap(v + d, |b|), Wrap(w + d, |b|), gt)
    ensures Answers(b, v, w, gt)
  {
    StepWrap(v, d, |b|);
    StepWrap(w, d, |b|);
    CmpSplit(b, v, w, d, |b|);
    CmpRound(b, v, w, d + |b|);
  }

  // ---------- Shell sort ----------

  /** Entry j is rising through the ordered rows lo..i: it is no larger than those it has passed. */
  ghost predicate Rising(b: seq<byte>, s: seq<int>, lo: int, j: int, i: int)
    requires 0 <= lo && i < |s| && forall x :: lo <= x <= i ==> 0 <= s[x] < |b|
  {
    && lo <= j <= i
    && (forall x, y :: lo <= x < y <= i && x != j && y != j ==> Cmp(b, s[x], s[y], |b|) <= 0)
    && (forall y :: j < y <= i ==> Cmp(b, s[j], s[y], |b|) <= 0)
  }

  ghost predicate RiseState(b: seq<byte>, start: seq<int>, s: seq<int>, lo: int, hi: int, j: int, i: int, h: int, d: nat) {
    && 0 <= lo <= j <= i <= hi < |s|
    && Rearranged(start, s, lo, hi + 1)
    && CommonPrefix(b, s, lo, hi, d)
    && (h == 1 ==> Rising(b, s, lo, j, i))
  }

  lemma RiseStart(b: seq<byte>, start: seq<int>, s: seq<int>, lo: int, hi: int, i: int, h: int, d: nat)
    requires 0 <= lo <= i <= hi < |s| && Rearranged(start, s, lo, hi + 1) && CommonPrefix(b, s, lo, hi, d)
    requires h == 1 ==> InOrder(b, s, lo, i - 1)
    ensures RiseState(b, start, s, lo, hi, i, i, h, d)
  {
  }

  lemma RiseOrder(b: seq<byte>, s: seq<int>, lo: int, j: int, i: int, t: seq<int>)
    requires 0 <= lo < j <= i < |s| && (forall x :: lo <= x <= i ==> 0 <= s[x] < |b|)
    requires Rising(b, s, lo, j, i) && Cmp(b, s[j - 1], s[j], |b|) >= 0 && t == Swapped(s, j - 1, j)
    ensures forall x :: lo <= x <= i ==> 0 <= t[x] < |b|
    ensures Rising(b, t, lo, j - 1, i)
  {
    CmpSwap(b, s[j - 1], s[j], |b|);
  }

  lemma RiseStep(b: seq<byte>, start: seq<int>, s: seq<int>, lo: int, hi: int, j: int, i: int, h: int, d: nat)
    requires RiseState(b, start, s, lo, hi, j, i, h, d) && 1 <= h && lo <= j - h
    requires Answers(b, s[j - h], s[j], true)
    ensures RiseState(b, start, Swapped(s, j - h, j), lo, hi, j - h, i, h, d)
  {
    hide Rearranged, Swapped, CommonPrefix, Rising, Cmp;
    var t := Swapped(s, j - h, j);
    RearrangedSwap(s, lo, hi + 1, j - h, j);
    RearrangedTrans(start, s, t, lo, hi + 1);
    CommonPrefixRearranged(b, s, t, lo, hi, d);
    if h == 1 {
      PrefixRows(b, s, lo, hi, d);
      RiseOrder(b, s, lo, j, i, t);
    }
  }

  lemma PrefixRows(b: seq<byte>, s: seq<int>, lo: int, hi: int, d: nat)
    requires CommonPrefix(b, s, lo, hi, d)
    ensures forall x :: lo <= x <= hi ==> 0 <= s[x] < |b|
  {
  }

  /** The entry at j need not rise further by steps of h. */
  ghost predicate Stops(b: seq<byte>, s: seq<int>, lo: int, j: int, h: int) {
    0 <= lo <= j - h < |s| && 0 <= j < |s| ==> 0 <= s[j - h] < |b| && 0 <= s[j] < |b| && Answers(b, s[j - h], s[j], false)
  }

  lemma RiseDone(b: seq<byte>, start: seq<int>, s: seq<int>, lo: int, hi: int, j: int, i: int, h: int, d: nat)
    requires RiseState(b, start, s, lo, hi, j, i, h, d)
    requires 1 <= h && Stops(b, s, lo, j, h)
    ensures Rearranged(start, s, lo, hi + 1) && CommonPrefix(b, s, lo, hi, d)
    ensures h == 1 ==> InOrder(b, s, lo, i)
  {
    if h == 1 {
      forall x, y | lo <= x < y <= i ensures Cmp(b, s[x], s[y], |b|) <= 0 {
        if y == j && x < j - 1 {
          CmpTrans(b, s[x], s[j - 1], s[j], |b|);
        }
      }
    }
  }

  method RowsGt(v: int, w: int, d: int, block: array<int>, quadrant: array<int>, nblock: int, budget0: int, ghost b: seq<byte>)
    returns (gt: bool, budget: int)
    requires Comparable(b, block[..], quadrant[..]) && nblock == |b| && 0 <= d <= 15
    requires 0 <= v < nblock && 0 <= w < nblock && Cmp(b, v, w, d) == 0
    ensures Answers(b, v, w, gt) && budget <= budget0
  {
    hide QuadrantsSound, Extended, Cmp, Answers;
    LongEnough(b, block[..]);
    gt, budget := GtU(v + d, w + d, block, quadrant, nblock, budget0, b);
    CompareDeeper(b, v, w, d, gt);
  }

  lemma LongEnough(b: seq<byte>, block: seq<int>)
    requires Extended(b, block)
    ensures |b| > OVERSHOOT && |b| + OVERSHOOT <= |block|
  {
  }

  lemma HoledFill(a: seq<int>, s: seq<int>, j: int)
    requires Holed(a, s, j)
    ensures a[j := s[j]] == s
  {
  }

  method MoveUp(ptr: array<int>, k: int, j: int, ghost s: seq<int>) returns (ghost t: seq<int>)
    requires Holed(ptr[..], s, j) && 0 <= k < |s| && k != j
    modifies ptr
    ensures t == Swapped(s, k, j) && Holed(ptr[..], t, k) && |t| == |s| && t[k] == s[j]
  {
    t := Swapped(s, k, j);
    ptr[j] := ptr[k];
  }

  /** The array a is the segment s with a hole at j, where v is to go. */
  ghost predicate Placing(b: seq<byte>, start: seq<int>, a: seq<int>, s: seq<int>,
                          lo: int, hi: int, j: int, i: int, h: int, d: nat, v: int) {
    && RiseState(b, start, s, lo, hi, j, i, h, d)
    && Holed(a, s, j)
    && s[j] == v
  }

  lemma PlacingRows(b: seq<byte>, start: seq<int>, a: seq<int>, s: seq<int>,
                    lo: int, hi: int, j: int, i: int, h: int, d: nat, v: int)
    requires Placing(b, start, a, s, lo, hi, j, i, h, d, v) && 1 <= h && lo <= j - h
    ensures 0 <= j - h < j < |a| && |s| == |a| && Holed(a, s, j)
    ensures 0 <= a[j - h] < |b| && 0 <= v < |b| && Cmp(b, a[j - h], v, d) == 0
    ensures a[j - h] == s[j - h] && v == s[j]
  {
  }

  lemma PlacingStep(b: seq<byte>, start: seq<int>, a: seq<int>, s: seq<int>, t: seq<int>,
                    lo: int, hi: int, j: int, i: int, h: int, d: nat, v: int, a': seq<int>)
    requires Placing(b, start, a, s, lo, hi, j, i, h, d, v) && 1 <= h && lo <= j - h
    requires 0 <= a[j - h] < |b| && 0 <= v < |b| && Answers(b, a[j - h], v, true)
    requires t == Swapped(s, j - h, j) && Holed(a', t, j - h)
    ensures Placing(b, start, a', t, lo, hi, j - h, i, h, d, v)
  {
    hide RiseState, Answers;
    RiseStep(b, start, s, lo, hi, j, i, h, d);
  }

  /** Moves larger rows up by h until the place of the rising entry v = ptr[i] is found. */
  method FindPlace(ptr: array<int>, block: array<int>, quadrant: array<int>, nblock: int,
                   lo: int, ghost hi: int, d: int, i: int, h: int, v: int, budget0: int, ghost b: seq<byte>, ghost start: seq<int>)
    returns (j: int, budget: int, ghost s: seq<int>)
    requires ptr != block && ptr != quadrant && nblock == |b| && 0 <= d <= 15 && 1 <= h
    requires Comparable(b, block[..], quadrant[..])
    requires Placing(b, start, ptr[..], ptr[..], lo, hi, i, i, h, d, v)
    modifies ptr
    ensures budget <= budget0
    ensures Placing(b, start, ptr[..], s, lo, hi, j, i, h, d, v) && Stops(b, s, lo, j, h)
  {
    hide *;
    s := ptr[..];
    budget := budget0;
    j := i;
    while j > lo + h - 1
      invariant budget <= budget0 && Comparable(b, block[..], quadrant[..])
      invariant Placing(b, start, ptr[..], s, lo, hi, j, i, h, d, v)
      decreases j - lo
    {
      PlacingRows(b, start, ptr[..], s, lo, hi, j, i, h, d, v);
      var gt;
      gt, budget := RowsGt(ptr[j - h], v, d, block, quadrant, nblock, budget, b);
      if !gt {
        StopsHere(b, s, lo, j, h);
        return;
      }
      ghost var a, s0 := ptr[..], s;
      s := MoveUp(ptr, j - h, j, s0);
      PlacingStep(b, start, a, s0, s, lo, hi, j, i, h, d, v, ptr[..]);
      j := j - h;
    }
    StopsAtEnd(b, s, lo, j, h);
  }

  lemma StopsHere(b: seq<byte>, s: seq<int>, lo: int, j: int, h: int)
    requires 0 <= j - h < |s| && 0 <= j < |s| && 0 <= s[j - h] < |b| && 0 <= s[j] < |b|
    requires Answers(b, s[j - h], s[j], false)
    ensures Stops(b, s, lo, j, h)
  {
  }

  lemma StopsAtEnd(b: seq<byte>, s: seq<int>, lo: int, j: int, h: int)
    ensures j - h < lo ==> Stops(b, s, lo, j, h)
  {
  }

  /** Inserts row i into the rows before it, in steps of h. */
  method Insert(ptr: array<int>, block: array<int>, quadrant: array<int>, nblock: int,
                lo: int, ghost hi: int, d: int, i: int, h: int, budget0: int, ghost b: seq<byte>, ghost start: seq<int>)
    returns (budget: int)
    requires ptr != block && ptr != quadrant && nblock == |b| && 0 <= d <= 15
    requires Comparable(b, block[..], quadrant[..])
    requires 0 <= lo <= hi < ptr.Length && 1 <= h && lo + h <= i <= hi
    requires Rearranged(start, ptr[..], lo, hi + 1) && CommonPrefix(b, ptr[..], lo, hi, d)
    requires h == 1 ==> InOrder(b, ptr[..], lo, i - 1)
    modifies ptr
    ensures Rearranged(start, ptr[..], lo, hi + 1) && CommonPrefix(b, ptr[..], lo, hi, d)
    ensures h == 1 ==> InOrder(b, ptr[..], lo, i)
    ensures budget <= budget0
  {
    var v := ptr[i];
    RiseStart(b, start, ptr[..], lo, hi, i, h, d);
    assert Placing(b, start, ptr[..], ptr[..], lo, hi, i, i, h, d, v);
    hide *;
    var j;
    ghost var s;
    j, budget, s := FindPlace(ptr, block, quadrant, nblock, lo, hi, d, i, h, v, budget0, b, start);
    PlacingEnds(b, start, ptr[..], s, lo, hi, j, i, h, d, v);
    RiseDone(b, start, s, lo, hi, j, i, h, d);
    ghost var a := ptr[..];
    ptr[j] := v;
    assert ptr[..] == a[j := v];
  }

  lemma PlacingEnds(b: seq<byte>, start: seq<int>, a: seq<int>, s: seq<int>,
                    lo: int, hi: int, j: int, i: int, h: int, d: nat, v: int)
    requires Placing(b, start, a, s, lo, hi, j, i, h, d, v)
    ensures RiseState(b, start, s, lo, hi, j, i, h, d) && 0 <= j < |a| && a[j := v] == s
  {
    HoledFill(a, s, j);
  }

  /** Shell sort of rows lo..hi, all sharing d bytes; given up when the budget is spent. */
  method SimpleSort(ptr: array<int>, block: array<int>, quadrant: array<int>, nblock: int,
                    lo: int, hi: int, d: int, budget0: int, ghost b: seq<byte>)
    returns (budget: int)
    requires ptr != block && ptr != quadrant && nblock == |b| <= MAX_BLOCK && 0 <= d <= 15
    requires Comparable(b, block[..], quadrant[..])
    requires 0 <= lo <= hi + 1 <= ptr.Length && hi - lo < nblock && CommonPrefix(b, ptr[..], lo, hi, d)
    modifies ptr
    ensures Rearranged(old(ptr[..]), ptr[..], lo, hi + 1) && CommonPrefix(b, ptr[..], lo, hi, d)
    ensures budget <= budget0
    ensures budget >= 0 ==> InOrder(b, ptr[..], lo, hi)
  {
    ghost var start := ptr[..];
    RearrangedSame(start, lo, hi + 1);
    budget := budget0;
    var bigN := hi - lo + 1;
    if bigN < 2 { return; }
    assert InOrder(b, start, lo, lo);
    hide Comparable, Cmp, Rearranged, CommonPrefix, InOrder;
    var hp := 0;
    while INCS[hp] < bigN
      invariant 0 <= hp < 14
      decreases 14 - hp
    {
      hp := hp + 1;
    }
    hp := hp - 1;
    while hp >= 0
      invariant -1 <= hp < 13 && budget <= budget0
      invariant Rearranged(start, ptr[..], lo, hi + 1) && CommonPrefix(b, ptr[..], lo, hi, d)
      invariant hp == -1 ==> InOrder(b, ptr[..], lo, hi)
    {
      var abandoned;
      budget, abandoned := ShellPass(ptr, block, quadrant, nblock, lo, hi, d, INCS[hp], budget, b, start);
      if abandoned { return; }
      hp := hp - 1;
    }
  }

  /** One pass of step h; the budget is looked at after every third insertion. */
  method ShellPass(ptr: array<int>, block: array<int>, quadrant: array<int>, nblock: int,
                   lo: int, hi: int, d: int, h: int, budget0: int, ghost b: seq<byte>, ghost start: seq<int>)
    returns (budget: int, abandoned: bool)
    requires ptr != block && ptr != quadrant && nblock == |b| && 0 <= d <= 15
    requires Comparable(b, block[..], quadrant[..])
    requires 0 <= lo < hi < ptr.Length && 1 <= h
    requires Rearranged(start, ptr[..], lo, hi + 1) && CommonPrefix(b, ptr[..], lo, hi, d)
    modifies ptr
    ensures Rearranged(start, ptr[..], lo, hi + 1) && CommonPrefix(b, ptr[..], lo, hi, d)
    ensures budget <= budget0 && (abandoned ==> budget < 0)
    ensures h == 1 && !abandoned ==> InOrder(b, ptr[..], lo, hi)
  {
    OneInOrder(b, ptr[..], lo, hi, d);
    hide Comparable, Cmp, Rearranged, CommonPrefix, InOrder;
    budget := budget0;
    var i, copies := lo + h, 0;
    while i <= hi
      invariant lo + h <= i && (h == 1 ==> i <= hi + 1) && budget <= budget0
      invariant Rearranged(start, ptr[..], lo, hi + 1) && CommonPrefix(b, ptr[..], lo, hi, d)
      invariant h == 1 ==> InOrder(b, ptr[..], lo, i - 1)
      decreases hi - i
    {
      budget := Insert(ptr, block, quadrant, nblock, lo, hi, d, i, h, budget, b, start);
      i, copies := i + 1, copies + 1;
      if copies == 3 {
        if budget < 0 { return budget, true; }
        copies := 0;
      }
    }
    abandoned := false;
  }

  lemma OneInOrder(b: seq<byte>, s: seq<int>, lo: int, hi: int, d: nat)
    requires CommonPrefix(b, s, lo, hi, d) && lo <= hi
    ensures forall x :: lo <= x <= hi ==> 0 <= s[x] < |b|
    ensures InOrder(b, s, lo, lo)
  {
  }

  // ---------- string quicksort ----------

  /** A pending segment: rows lo..hi, known to share d bytes. */
  datatype Segment = Segment(lo: int, hi: int, d: int) {
    ghost function Size(): int { hi - lo + 1 }

    ghost predicate Within(from: int, to: int) { from <= lo <= hi + 1 <= to + 1 && 0 <= d <= 15 }

    /** Rows still to sort, weighted by the bytes still to look at. */
    ghost function Weight(): int { 3 * Size() * (17 - d) + 1 }
  }

  /** The stack as segments, bottom first. */
  ghost function Stack(los: seq<int>, his: seq<int>, ds: seq<int>, sp: nat): (r: seq<Segment>)
    requires sp <= |los| == |his| == |ds|
    ensures |r| == sp
  {
    seq(sp, k requires 0 <= k < sp => Segment(los[k], his[k], ds[k]))
  }

  ghost function TotalWeight(st: seq<Segment>): int {
    if st == [] then 0 else TotalWeight(st[..|st| - 1]) + st[|st| - 1].Weight()
  }

  ghost predicate Disjoint(st: seq<Segment>) {
    forall j, k :: 0 <= j < k < |st| ==> st[j].hi < st[k].lo || st[k].hi < st[j].lo
  }

  /** Every second stack level holds at most half of what the level below may hold. */
  ghost predicate ShallowStack(st: seq<Segment>, total: int) {
    |st| <= 64 && forall k :: 0 <= k < |st| ==> st[k].Size() * Pow2(k / 2) <= total
  }

  ghost predicate PendingIn(st: seq<Segment>, x: int, y: int) {
    exists k :: 0 <= k < |st| && st[k].lo <= x && y <= st[k].hi
  }

  ghost predicate OrderedButPending(b: seq<byte>, s: seq<int>, st: seq<Segment>, from: int, to: int)
    requires 0 <= from && to < |s| && forall x :: from <= x <= to ==> 0 <= s[x] < |b|
  {
    forall x, y :: from <= x < y <= to ==> Cmp(b, s[x], s[y], |b|) <= 0 || PendingIn(st, x, y)
  }

  ghost predicate StackFits(st: seq<Segment>, from: int, to: int) {
    && (forall k :: 0 <= k < |st| ==> st[k].Within(from, to))
    && Disjoint(st)
    && ShallowStack(st, to - from + 1)
  }

  ghost predicate SharedPrefixes(b: seq<byte>, s: seq<int>, st: seq<Segment>) {
    forall k :: 0 <= k < |st| ==> 0 <= st[k].d && CommonPrefix(b, s, st[k].lo, st[k].hi, st[k].d)
  }

  ghost predicate SortState(b: seq<byte>, start: seq<int>, s: seq<int>, st: seq<Segment>, from: int, to: int) {
    && 0 <= from <= to + 1 <= |s|
    && Rearranged(start, s, from, to + 1)
    && (forall x :: from <= x <= to ==> 0 <= s[x] < |b|)
    && StackFits(st, from, to)
    && SharedPrefixes(b, s, st)
    && OrderedButPending(b, s, st, from, to)
  }

  lemma SortStart(b: seq<byte>, s: seq<int>, from: int, to: int, d: int)
    requires 0 <= d <= 15 && from <= to + 1 && CommonPrefix(b, s, from, to, d)
    ensures SortState(b, s, s, [Segment(from, to, d)], from, to)
  {
    RearrangedSame(s, from, to + 1);
    assert [Segment(from, to, d)][0].Size() * Pow2(0) == to - from + 1;
    forall x, y | from <= x < y <= to ensures PendingIn([Segment(from, to, d)], x, y) {
      PendingAt([Segment(from, to, d)], x, y, 0);
    }
  }

  lemma PendingAt(st: seq<Segment>, x: int, y: int, k: int)
    requires 0 <= k < |st| && st[k].lo <= x && y <= st[k].hi
    ensures PendingIn(st, x, y)
  {
  }

  lemma TopSegment(b: seq<byte>, start: seq<int>, s: seq<int>, st: seq<Segment>, g: Segment, from: int, to: int)
    requires SortState(b, start, s, st + [g], from, to)
    ensures from <= g.lo <= g.hi + 1 <= to + 1 && 0 <= g.d <= 15 && CommonPrefix(b, s, g.lo, g.hi, g.d)
    ensures |st| < 64 && to < |s| && 0 <= from
    ensures 0 <= TotalWeight(st) < TotalWeight(st + [g])
  {
    hide SortState, CommonPrefix, Segment.Within;
    SegmentsWithin(b, start, s, st + [g], from, to);
    SegmentsAre(st, g);
    WeightPositive(st, from, to);
    TopWithin(g, from, to);
    MulAtLeastZero(3 * g.Size(), 17 - g.d);
  }

  lemma SegmentsWithin(b: seq<byte>, start: seq<int>, s: seq<int>, st: seq<Segment>, from: int, to: int)
    requires SortState(b, start, s, st, from, to)
    ensures |st| <= 64 && to < |s| && 0 <= from
    ensures forall k :: 0 <= k < |st| ==> st[k].Within(from, to) && CommonPrefix(b, s, st[k].lo, st[k].hi, st[k].d)
  {
    hide Cmp, Rearranged, Disjoint, OrderedButPending, CommonPrefix, Segment.Within;
  }

  lemma SegmentsAre(st: seq<Segment>, g: Segment)
    ensures (st + [g])[|st|] == g && (st + [g])[..|st|] == st && forall k :: 0 <= k < |st| ==> (st + [g])[k] == st[k]
  {
  }

  lemma TopWithin(g: Segment, from: int, to: int)
    requires g.Within(from, to)
    ensures from <= g.lo <= g.hi + 1 <= to + 1 && 0 <= g.d <= 15 && g.Size() >= 0
  {
  }

  lemma {:induction false} WeightPositive(st: seq<Segment>, from: int, to: int)
    requires forall k :: 0 <= k < |st| ==> st[k].Within(from, to)
    ensures TotalWeight(st) >= |st|
  {
    if st != [] {
      var g := st[|st| - 1];
      assert g.Within(from, to);
      MulAtLeastZero(3 * g.Size(), 17 - g.d);
      WeightPositive(st[..|st| - 1], from, to);
    }
  }

  lemma MulAtLeastZero(a: int, c: int)
    requires a >= 0 && c >= 0
    ensures a * c >= 0
  {
  }

  /** Entries outside the top segment keep their order when the top segment is rearranged. */
  lemma OutsideTop(b: seq<byte>, s: seq<int>, t: seq<int>, st: seq<Segment>, g: Segment, from: int, to: int, x: int, y: int)
    requires 0 <= from && to < |s| == |t| && g.Within(from, to)
    requires forall x :: from <= x <= to ==> 0 <= s[x] < |b| && 0 <= t[x] < |b|
    requires Disjoint(st + [g]) && OrderedButPending(b, s, st + [g], from, to)
    requires Rearranged(s, t, g.lo, g.hi + 1)
    requires from <= x < y <= to && !(g.lo <= x && y <= g.hi)
    ensures Cmp(b, t[x], t[y], |b|) <= 0 || PendingIn(st, x, y)
  {
    hide Cmp;
    var x', y' := x, y;
    if g.lo <= x <= g.hi { x' := RearrangedFrom(s, t, g.lo, g.hi + 1, x); }
    if g.lo <= y <= g.hi { y' := RearrangedFrom(s, t, g.lo, g.hi + 1, y); }
    assert t[x] == s[x'] && t[y] == s[y'] && x' < y';
    if PendingIn(st + [g], x', y') {
      var k :| 0 <= k < |st + [g]| && (st + [g])[k].lo <= x' && y' <= (st + [g])[k].hi;
      assert (st + [g])[|st|] == g;
      assert k < |st|;
      PendingAt(st, x, y, k);
    }
  }

  lemma PrefixesBelow(b: seq<byte>, s: seq<int>, t: seq<int>, st: seq<Segment>, g: Segment, from: int, to: int)
    requires SharedPrefixes(b, s, st + [g]) && Disjoint(st + [g]) && g.lo <= g.hi + 1
    requires Rearranged(s, t, g.lo, g.hi + 1)
    ensures SharedPrefixes(b, t, st)
  {
    RearrangedFrame(s, t, g.lo, g.hi + 1);
    hide Cmp, Rearranged;
    assert (st + [g])[|st|] == g;
    forall k | 0 <= k < |st| ensures 0 <= st[k].d && CommonPrefix(b, t, st[k].lo, st[k].hi, st[k].d) {
      assert (st + [g])[k] == st[k];
      forall x | st[k].lo <= x <= st[k].hi ensures t[x] == s[x] {
      }
    }
  }

  lemma RowsKept(b: seq<byte>, start: seq<int>, s: seq<int>, t: seq<int>, g: Segment, from: int, to: int)
    requires 0 <= from <= to + 1 <= |s| && Rearranged(start, s, from, to + 1) && g.Within(from, to)
    requires forall x :: from <= x <= to ==> 0 <= s[x] < |b|
    requires Rearranged(s, t, g.lo, g.hi + 1)
    ensures |t| == |s| && Rearranged(start, t, from, to + 1)
    ensures forall x :: from <= x <= to ==> 0 <= t[x] < |b|
  {
    RearrangedWiden(s, t, g.lo, g.hi + 1, from, to + 1);
    RearrangedTrans(start, s, t, from, to + 1);
    forall x | from <= x <= to ensures 0 <= t[x] < |b| {
      var y := RearrangedFrom(s, t, from, to + 1, x);
    }
  }

  lemma SortedTop(b: seq<byte>, start: seq<int>, s: seq<int>, t: seq<int>, st: seq<Segment>, g: Segment, from: int, to: int)
    requires SortState(b, start, s, st + [g], from, to) && 0 <= g.d
    requires Rearranged(s, t, g.lo, g.hi + 1) && CommonPrefix(b, t, g.lo, g.hi, g.d) && InOrder(b, t, g.lo, g.hi)
    ensures SortState(b, start, t, st, from, to)
  {
    hide Cmp, Rearranged, CommonPrefix, PendingIn;
    assert (st + [g])[|st|] == g;
    RowsKept(b, start, s, t, g, from, to);
    PrefixesBelow(b, s, t, st, g, from, to);
    FitsBelow(st, g, from, to);
    forall x, y | from <= x < y <= to
      ensures Cmp(b, t[x], t[y], |b|) <= 0 || PendingIn(st, x, y)
    {
      if !(g.lo <= x && y <= g.hi) {
        OutsideTop(b, s, t, st, g, from, to, x, y);
      }
    }
  }

  lemma FitsBelow(st: seq<Segment>, g: Segment, from: int, to: int)
    requires StackFits(st + [g], from, to)
    ensures StackFits(st, from, to)
  {
    forall k | 0 <= k < |st| ensures st[k] == (st + [g])[k] {
    }
  }

  /** Two rows sharing d bytes: the next byte orders them, or extends what they share. */
  lemma NextByte(b: seq<byte>, block: seq<int>, s: seq<int>, lo: int, hi: int, d: nat, x: int, y: int)
    requires Extended(b, block) && d <= 15 && CommonPrefix(b, s, lo, hi, d) && lo <= x <= hi && lo <= y <= hi
    ensures block[s[x] + d] < block[s[y] + d] ==> Cmp(b, s[x], s[y], |b|) < 0
    ensures block[s[x] + d] == block[s[y] + d] ==> Cmp(b, s[x], s[y], d + 1) == 0
  {
    var v, w := s[x], s[y];
    CmpSplit(b, v, w, d, 1);
    CmpRound(b, v, w, d + 1);
    StepWrap(v, d, |b|);
    StepWrap(w, d, |b|);
    var i, j := Step(v, d, |b|), Step(w, d, |b|);
    assert Cmp(b, i, j, 1) == if b[i] < b[j] then -1 else if b[i] > b[j] then 1 else 0;
  }

  /** The middle of a partition shares one byte more. */
  lemma MiddleDeeper(b: seq<byte>, block: seq<int>, s: seq<int>, lo: int, hi: int, d: nat, med: int, n: int, m: int)
    requires Extended(b, block) && d <= 15 && CommonPrefix(b, s, lo, hi, d)
    requires Indexable(s, |block|, d, lo, hi + 1) && Parted(s, block, d, med, lo, n, m, hi)
    ensures CommonPrefix(b, s, n + 1, m - 1, d + 1)
  {
    hide Cmp, Extended;
    forall x, y | n + 1 <= x <= m - 1 && n + 1 <= y <= m - 1 ensures Cmp(b, s[x], s[y], d + 1) == 0 {
      NextByte(b, block, s, lo, hi, d, x, y);
    }
  }

  /** Every prefix of a row fits the extended block. */
  lemma PrefixIndexable(b: seq<byte>, block: seq<int>, s: seq<int>, lo: int, hi: int, d: nat)
    requires Extended(b, block) && d <= 15 && CommonPrefix(b, s, lo, hi, d)
    ensures Indexable(s, |block|, d, lo, hi + 1)
  {
  }

  lemma DeeperTop(b: seq<byte>, start: seq<int>, s: seq<int>, t: seq<int>, block: seq<int>, st: seq<Segment>, g: Segment,
                  med: int, from: int, to: int)
    requires Extended(b, block) && SortState(b, start, s, st + [g], from, to) && 0 <= g.d <= 14 && g.lo <= g.hi
    requires Rearranged(s, t, g.lo, g.hi + 1) && CommonPrefix(b, t, g.lo, g.hi, g.d)
    requires Indexable(t, |block|, g.d, g.lo, g.hi + 1) && Parted(t, block, g.d, med, g.lo, g.lo - 1, g.hi + 1, g.hi)
    ensures SortState(b, start, t, st + [Segment(g.lo, g.hi, g.d + 1)], from, to)
    ensures TotalWeight(st + [Segment(g.lo, g.hi, g.d + 1)]) < TotalWeight(st + [g])
  {
    hide Cmp, Rearranged, CommonPrefix, PendingIn, Extended, StackFits, OrderedButPending, Disjoint, SharedPrefixes;
    SplitBounds(st, g, from, to);
    RowsKept(b, start, s, t, g, from, to);
    DeeperFits(st, g, from, to);
    DeeperWeight(st, g);
    PrefixesBelow(b, s, t, st, g, from, to);
    MiddleDeeper(b, block, t, g.lo, g.hi, g.d, med, g.lo - 1, g.hi + 1);
    DeeperPrefixes(b, t, st, Segment(g.lo, g.hi, g.d + 1));
    DeeperOrdered(b, s, t, st, g, from, to);
  }

  lemma DeeperPrefixes(b: seq<byte>, t: seq<int>, st: seq<Segment>, e: Segment)
    requires SharedPrefixes(b, t, st) && 0 <= e.d && CommonPrefix(b, t, e.lo, e.hi, e.d)
    ensures SharedPrefixes(b, t, st + [e])
  {
    hide CommonPrefix;
    assert forall j :: 0 <= j < |st| ==> (st + [e])[j] == st[j];
  }

  lemma DeeperWeight(st: seq<Segment>, g: Segment)
    requires g.lo <= g.hi
    ensures TotalWeight(st + [Segment(g.lo, g.hi, g.d + 1)]) < TotalWeight(st + [g])
  {
    var e := Segment(g.lo, g.hi, g.d + 1);
    assert (st + [g])[..|st|] == st && (st + [e])[..|st|] == st;
    assert (st + [g])[|st|] == g && (st + [e])[|st|] == e;
    TimesLess(3 * g.Size(), 17 - g.d);
  }

  lemma DeeperOrdered(b: seq<byte>, s: seq<int>, t: seq<int>, st: seq<Segment>, g: Segment, from: int, to: int)
    requires 0 <= from && to < |s| == |t| && g.Within(from, to)
    requires forall x :: from <= x <= to ==> 0 <= s[x] < |b| && 0 <= t[x] < |b|
    requires Disjoint(st + [g]) && OrderedButPending(b, s, st + [g], from, to)
    requires Rearranged(s, t, g.lo, g.hi + 1)
    ensures OrderedButPending(b, t, st + [Segment(g.lo, g.hi, g.d + 1)], from, to)
  {
    hide Cmp, Rearranged, PendingIn;
    var e := Segment(g.lo, g.hi, g.d + 1);
    forall x, y | from <= x < y <= to
      ensures Cmp(b, t[x], t[y], |b|) <= 0 || PendingIn(st + [e], x, y)
    {
      if g.lo <= x && y <= g.hi {
        assert (st + [e])[|st|] == e;
        PendingAt(st + [e], x, y, |st|);
      } else {
        OutsideTop(b, s, t, st, g, from, to, x, y);
        if PendingIn(st, x, y) { PendingMore(st, [e], x, y); }
      }
    }
  }

  lemma PendingMore(st: seq<Segment>, more: seq<Segment>, x: int, y: int)
    requires PendingIn(st, x, y)
    ensures PendingIn(st + more, x, y)
  {
    var k :| 0 <= k < |st| && st[k].lo <= x && y <= st[k].hi;
    assert (st + more)[k] == st[k];
  }

  lemma DeeperFits(st: seq<Segment>, g: Segment, from: int, to: int)
    requires StackFits(st + [g], from, to) && g.d <= 14
    ensures StackFits(st + [Segment(g.lo, g.hi, g.d + 1)], from, to)
  {
    assert (st + [g])[|st|] == g;
    forall k | 0 <= k < |st| ensures st[k] == (st + [g])[k] {
    }
  }

  /** a, b, c are the three parts of a partition of g, in some order. */
  ghost predicate Parts(g: Segment, n: int, m: int, p: Segment, q: Segment, r: Segment) {
    var l, u, e := Segment(g.lo, n, g.d), Segment(m, g.hi, g.d), Segment(n + 1, m - 1, g.d + 1);
    || (p == l && q == u && r == e) || (p == l && q == e && r == u)
    || (p == u && q == l && r == e) || (p == u && q == e && r == l)
    || (p == e && q == l && r == u) || (p == e && q == u && r == l)
  }

  lemma SplitFits(st: seq<Segment>, g: Segment, n: int, m: int, p: Segment, q: Segment, r: Segment, from: int, to: int)
    requires StackFits(st + [g], from, to) && to - from + 1 < 0x8000_0000
    requires g.lo <= g.hi && g.d <= 14 && g.lo - 1 <= n && n + 1 < m <= g.hi + 1
    requires Parts(g, n, m, p, q, r) && p.Size() >= q.Size() >= r.Size()
    ensures StackFits(st + [p, q, r], from, to)
  {
    hide Disjoint, ShallowStack;
    assert (st + [g])[|st|] == g;
    forall j | 0 <= j < |st| ensures st[j] == (st + [g])[j] && st[j] == (st + [p, q, r])[j] {
    }
    SplitShallow(st, g, p, q, r, to - from + 1);
    SplitDisjoint(st, g, n, m, p, q, r);
  }

  lemma SplitShallow(st: seq<Segment>, g: Segment, p: Segment, q: Segment, r: Segment, total: int)
    requires ShallowStack(st + [g], total) && total < 0x8000_0000 && 1 <= g.Size()
    requires p.Size() + q.Size() + r.Size() <= g.Size() && p.Size() >= q.Size() >= r.Size() >= 0
    ensures ShallowStack(st + [p, q, r], total)
  {
    var k, st' := |st|, st + [p, q, r];
    assert (st + [g])[k] == g;
    DepthBound(g.Size(), k / 2, total);
    SmallerFits(p.Size(), g.Size(), k / 2, total);
    HalfFits(q.Size(), g.Size(), k / 2, total);
    HalfFits(r.Size(), g.Size(), k / 2, total);
    SmallerFits(q.Size(), g.Size(), k / 2, total);
    hide Pow2;
    forall j | 0 <= j < |st'| ensures st'[j].Size() * Pow2(j / 2) <= total {
      if j < k {
        assert (st + [g])[j] == st'[j];
      } else if j == k {
      } else if j == k + 1 {
        assert (k + 1) / 2 == k / 2 || (k + 1) / 2 == k / 2 + 1;
      } else {
        assert (k + 2) / 2 == k / 2 + 1;
      }
    }
  }

  lemma SplitDisjoint(st: seq<Segment>, g: Segment, n: int, m: int, p: Segment, q: Segment, r: Segment)
    requires Disjoint(st + [g]) && g.lo - 1 <= n && n + 1 < m <= g.hi + 1 && g.lo <= g.hi && Parts(g, n, m, p, q, r)
    requires forall k :: 0 <= k < |st| ==> st[k].lo <= st[k].hi + 1
    ensures Disjoint(st + [p, q, r])
  {
    var k, st' := |st|, st + [p, q, r];
    assert (st + [g])[k] == g && st'[k] == p && st'[k + 1] == q && st'[k + 2] == r;
    forall i, j | 0 <= i < j < |st'| ensures st'[i].hi < st'[j].lo || st'[j].hi < st'[i].lo {
      if i < k {
        assert (st + [g])[i] == st[i] == st'[i];
        if j < k { assert (st + [g])[j] == st'[j]; }
      }
    }
  }

  lemma SplitWeight(st: seq<Segment>, g: Segment, n: int, m: int, p: Segment, q: Segment, r: Segment)
    requires g.lo - 1 <= n && n + 1 < m <= g.hi + 1 && Parts(g, n, m, p, q, r)
    ensures TotalWeight(st + [p, q, r]) < TotalWeight(st + [g])
  {
    var a, b, c := st + [p], st + [p, q], st + [p, q, r];
    assert c[..|c| - 1] == b && b[..|b| - 1] == a && a[..|a| - 1] == st;
    assert c[|c| - 1] == r && b[|b| - 1] == q && a[|a| - 1] == p;
    assert TotalWeight(a) == TotalWeight(st) + p.Weight();
    assert TotalWeight(b) == TotalWeight(a) + q.Weight();
    assert TotalWeight(c) == TotalWeight(b) + r.Weight();
    assert (st + [g])[..|st|] == st && (st + [g])[|st|] == g;
    assert TotalWeight(st + [g]) == TotalWeight(st) + g.Weight();
    var l, u, e := Segment(g.lo, n, g.d), Segment(m, g.hi, g.d), Segment(n + 1, m - 1, g.d + 1);
    assert p.Weight() + q.Weight() + r.Weight() == l.Weight() + u.Weight() + e.Weight();
    var w := 17 - g.d;
    assert e.Weight() == 3 * e.Size() * w - 3 * e.Size() + 1 by { TimesLess(3 * e.Size(), w); }
    assert g.Size() == l.Size() + u.Size() + e.Size();
    assert 3 * g.Size() * w == 3 * l.Size() * w + 3 * u.Size() * w + 3 * e.Size() * w
      by { Distribute3(3 * l.Size(), 3 * u.Size(), 3 * e.Size(), w); }
  }

  lemma TimesLess(a: int, w: int)
    ensures a * (w - 1) == a * w - a
  {
  }

  lemma Distribute3(a: int, b: int, c: int, w: int)
    ensures (a + b + c) * w == a * w + b * w + c * w
  {
  }

  lemma SplitTop(b: seq<byte>, start: seq<int>, s: seq<int>, t: seq<int>, block: seq<int>, st: seq<Segment>, g: Segment,
                 med: int, n: int, m: int, p: Segment, q: Segment, r: Segment, from: int, to: int)
    requires Extended(b, block) && SortState(b, start, s, st + [g], from, to) && 0 <= g.d <= 14 && g.lo <= g.hi
    requires to - from + 1 < 0x8000_0000
    requires Rearranged(s, t, g.lo, g.hi + 1) && CommonPrefix(b, t, g.lo, g.hi, g.d)
    requires Indexable(t, |block|, g.d, g.lo, g.hi + 1) && Parted(t, block, g.d, med, g.lo, n, m, g.hi)
    requires Parts(g, n, m, p, q, r) && p.Size() >= q.Size() >= r.Size()
    ensures SortState(b, start, t, st + [p, q, r], from, to)
    ensures TotalWeight(st + [p, q, r]) < TotalWeight(st + [g])
  {
    hide Cmp, Rearranged, CommonPrefix, PendingIn, Extended, StackFits, OrderedButPending, Disjoint, SharedPrefixes, Parts;
    SplitBounds(st, g, from, to);
    RowsKept(b, start, s, t, g, from, to);
    SplitFits(st, g, n, m, p, q, r, from, to);
    SplitWeight(st, g, n, m, p, q, r);
    PrefixesBelow(b, s, t, st, g, from, to);
    SplitPrefixes(b, t, block, st, g, med, n, m, p, q, r);
    SplitOrdered(b, s, t, block, st, g, med, n, m, p, q, r, from, to);
  }

  lemma SplitBounds(st: seq<Segment>, g: Segment, from: int, to: int)
    requires StackFits(st + [g], from, to)
    ensures g.Within(from, to) && Disjoint(st + [g])
  {
    assert (st + [g])[|st|] == g;
  }

  lemma SplitPrefixes(b: seq<byte>, t: seq<int>, block: seq<int>, st: seq<Segment>, g: Segment,
                      med: int, n: int, m: int, p: Segment, q: Segment, r: Segment)
    requires Extended(b, block) && SharedPrefixes(b, t, st) && 0 <= g.d <= 14
    requires CommonPrefix(b, t, g.lo, g.hi, g.d)
    requires Indexable(t, |block|, g.d, g.lo, g.hi + 1) && Parted(t, block, g.d, med, g.lo, n, m, g.hi)
    requires Parts(g, n, m, p, q, r)
    ensures SharedPrefixes(b, t, st + [p, q, r])
  {
    MiddleDeeper(b, block, t, g.lo, g.hi, g.d, med, n, m);
    assert CommonPrefix(b, t, g.lo, n, g.d) && CommonPrefix(b, t, m, g.hi, g.d);
    hide CommonPrefix, Extended;
    var st' := st + [p, q, r];
    assert st'[|st|] == p && st'[|st| + 1] == q && st'[|st| + 2] == r;
    assert forall j :: 0 <= j < |st| ==> st'[j] == st[j];
  }

  lemma SplitOrdered(b: seq<byte>, s: seq<int>, t: seq<int>, block: seq<int>, st: seq<Segment>, g: Segment,
                     med: int, n: int, m: int, p: Segment, q: Segment, r: Segment, from: int, to: int)
    requires 0 <= from && to < |s| == |t| && g.Within(from, to) && Extended(b, block)
    requires forall x :: from <= x <= to ==> 0 <= s[x] < |b| && 0 <= t[x] < |b|
    requires Disjoint(st + [g]) && OrderedButPending(b, s, st + [g], from, to)
    requires Rearranged(s, t, g.lo, g.hi + 1) && CommonPrefix(b, t, g.lo, g.hi, g.d)
    requires Indexable(t, |block|, g.d, g.lo, g.hi + 1) && Parted(t, block, g.d, med, g.lo, n, m, g.hi)
    requires Parts(g, n, m, p, q, r)
    ensures OrderedButPending(b, t, st + [p, q, r], from, to)
  {
    hide Cmp, Rearranged, CommonPrefix, PendingIn, Extended;
    var st' := st + [p, q, r];
    assert st'[|st|] == p && st'[|st| + 1] == q && st'[|st| + 2] == r;
    forall x, y | from <= x < y <= to
      ensures Cmp(b, t[x], t[y], |b|) <= 0 || PendingIn(st', x, y)
    {
      if g.lo <= x && y <= g.hi {
        if y <= n || m <= x || (n < x && y < m) {
          var k := if p.lo <= x && y <= p.hi then 0 else if q.lo <= x && y <= q.hi then 1 else 2;
          PendingAt(st', x, y, |st| + k);
        } else {
          NextByte(b, block, t, g.lo, g.hi, g.d, x, y);
        }
      } else {
        OutsideTop(b, s, t, st, g, from, to, x, y);
        if PendingIn(st, x, y) { PendingMore(st, [p, q, r], x, y); }
      }
    }
  }

  function Med3(a0: int, b0: int, c: int): (r: int)
    ensures r == a0 || r == b0 || r == c
  {
    var (a, b) := if a0 > b0 then (b0, a0) else (a0, b0);
    if b > c then (if a > c then a else c) else b
  }

  /** Partitions on the median of the bytes of the first, last and middle row. */
  method PartitionMedian(ptr: array<int>, block: array<int>, nblock: int, lo: int, hi: int, d: int, ghost b: seq<byte>)
    returns (allEqual: bool, n: int, m: int, med: int)
    requires ptr != block && nblock == |b| && 0 <= d <= 14 && Extended(b, block[..])
    requires 0 <= lo <= hi < ptr.Length && CommonPrefix(b, ptr[..], lo, hi, d)
    modifies ptr
    ensures Rearranged(old(ptr[..]), ptr[..], lo, hi + 1) && CommonPrefix(b, ptr[..], lo, hi, d)
    ensures Indexable(ptr[..], block.Length, d, lo, hi + 1)
    ensures allEqual <==> n == lo - 1 && m == hi + 1
    ensures Parted(ptr[..], block[..], d, med, lo, n, m, hi)
  {
    ghost var s := ptr[..];
    PrefixIndexable(b, block[..], s, lo, hi, d);
    hide Rearranged, CommonPrefix, Parted, Extended;
    var mid := (lo + hi) / 2;
    med := Med3(block[ptr[lo] + d], block[ptr[hi] + d], block[ptr[mid] + d]);
    allEqual, n, m := Partition(ptr, block, d, lo, hi, med);
    CommonPrefixRearranged(b, s, ptr[..], lo, hi, d);
  }

  /** The three parts, largest first. */
  method BySize(p0: Segment, q0: Segment, r0: Segment) returns (p: Segment, q: Segment, r: Segment)
    ensures p.Size() >= q.Size() >= r.Size()
    ensures
      || (p == p0 && q == q0 && r == r0) || (p == p0 && q == r0 && r == q0)
      || (p == q0 && q == p0 && r == r0) || (p == q0 && q == r0 && r == p0)
      || (p == r0 && q == p0 && r == q0) || (p == r0 && q == q0 && r == p0)
  {
    p, q, r := p0, q0, r0;
    if p.hi - p.lo < q.hi - q.lo { p, q := q, p; }
    if q.hi - q.lo < r.hi - r.lo { q, r := r, q; }
    if p.hi - p.lo < q.hi - q.lo { p, q := q, p; }
  }

  /** Writes segment g to stack level k. */
  method Store(los: array<int>, his: array<int>, ds: array<int>, k: int, g: Segment)
    requires los.Length == his.Length == ds.Length && 0 <= k < los.Length
    requires los != his && los != ds && his != ds
    modifies los, his, ds
    ensures Stack(los[..], his[..], ds[..], k + 1) == old(Stack(los[..], his[..], ds[..], k)) + [g]
  {
    los[k], his[k], ds[k] := g.lo, g.hi, g.d;
  }

  /**
   * Sorts rows loSt..hiSt, which share dSt bytes, into rotation order, in place and without recursion.
   * The stack of pending segments never comes near its fixed size; the sort is given up when the
   * budget for comparisons is spent.
   */
  method QSort3(ptr: array<int>, block: array<int>, quadrant: array<int>, nblock: int,
                loSt: int, hiSt: int, dSt: int, budget0: int, ghost b: seq<byte>)
    returns (budget: int)
    requires ptr != block && ptr != quadrant && nblock == |b| <= MAX_BLOCK && 0 <= dSt <= 14
    requires Comparable(b, block[..], quadrant[..])
    requires 0 <= loSt <= hiSt + 1 <= ptr.Length && hiSt - loSt < nblock && CommonPrefix(b, ptr[..], loSt, hiSt, dSt)
    modifies ptr
    ensures Rearranged(old(ptr[..]), ptr[..], loSt, hiSt + 1)
    ensures forall x :: loSt <= x <= hiSt ==> 0 <= ptr[x] < nblock
    ensures budget <= budget0
    ensures budget >= 0 ==> InOrder(b, ptr[..], loSt, hiSt)
  {
    ghost var start := ptr[..];
    SortStart(b, start, loSt, hiSt, dSt);
    hide *;
    var stackLo, stackHi, stackD := new int[STACK_SIZE], new int[STACK_SIZE], new int[STACK_SIZE];
    Store(stackLo, stackHi, stackD, 0, Segment(loSt, hiSt, dSt));
    var sp := 1;
    ghost var st := [Segment(loSt, hiSt, dSt)];
    assert st == Stack(stackLo[..], stackHi[..], stackD[..], 0) + st;
    budget := budget0;
    while sp > 0
      invariant 0 <= sp <= STACK_SIZE && Stack(stackLo[..], stackHi[..], stackD[..], sp) == st && budget <= budget0
      invariant SortState(b, start, ptr[..], st, loSt, hiSt)
      decreases TotalWeight(st)
    {
      sp, budget, st := SortTop(ptr, block, quadrant, nblock, stackLo, stackHi, stackD, sp, budget, loSt, hiSt, b, start, st);
      if budget < 0 { return; }
    }
    assert |st| == 0;
    AllSorted(b, start, ptr[..], st, loSt, hiSt);
  }

  /** Takes the top segment off the stack: sorts it, or partitions it and pushes what remains of it. */
  method SortTop(ptr: array<int>, block: array<int>, quadrant: array<int>, nblock: int,
                 stackLo: array<int>, stackHi: array<int>, stackD: array<int>, sp0: int, budget0: int,
                 ghost loSt: int, ghost hiSt: int, ghost b: seq<byte>, ghost start: seq<int>, ghost st0: seq<Segment>)
    returns (sp: int, budget: int, ghost st: seq<Segment>)
    requires ptr != block && ptr != quadrant && nblock == |b| <= MAX_BLOCK && Comparable(b, block[..], quadrant[..])
    requires stackLo.Length == stackHi.Length == stackD.Length == STACK_SIZE
    requires stackLo != stackHi && stackLo != stackD && stackHi != stackD
    requires ptr != stackLo && ptr != stackHi && ptr != stackD && block != stackLo && block != stackHi && block != stackD
    requires quadrant != stackLo && quadrant != stackHi && quadrant != stackD
    requires 0 < sp0 <= STACK_SIZE && Stack(stackLo[..], stackHi[..], stackD[..], sp0) == st0
    requires 0 <= loSt <= hiSt + 1 <= ptr.Length && hiSt - loSt < nblock
    requires SortState(b, start, ptr[..], st0, loSt, hiSt)
    modifies ptr, stackLo, stackHi, stackD
    ensures 0 <= sp <= STACK_SIZE && Stack(stackLo[..], stackHi[..], stackD[..], sp) == st && budget <= budget0
    ensures budget >= 0 ==> SortState(b, start, ptr[..], st, loSt, hiSt) && 0 <= TotalWeight(st) < TotalWeight(st0)
    ensures Rearranged(start, ptr[..], loSt, hiSt + 1) && forall x :: loSt <= x <= hiSt ==> 0 <= ptr[x] < nblock
  {
    var g := Segment(stackLo[sp0 - 1], stackHi[sp0 - 1], stackD[sp0 - 1]);
    ghost var below := Stack(stackLo[..], stackHi[..], stackD[..], sp0 - 1);
    StackTop(stackLo[..], stackHi[..], stackD[..], sp0);
    hide *;
    TopSegment(b, start, ptr[..], below, g, loSt, hiSt);
    StackDepth(stackLo[..], stackHi[..], stackD[..], sp0 - 1);
    assert sp0 < STACK_SIZE - 2;  // assertion 1001
    budget := budget0;
    if g.hi - g.lo < SMALL_THRESH || g.d > DEPTH_THRESH {
      budget := SortSegment(ptr, block, quadrant, nblock, g, budget, loSt, hiSt, b, start, below);
      sp, st := sp0 - 1, below;
    } else {
      ComparableBlock(b, block[..], quadrant[..]);
      sp, st := SplitSegment(ptr, block, nblock, stackLo, stackHi, stackD, sp0 - 1, g, loSt, hiSt, b, start, below);
      StateRows(b, start, ptr[..], st, loSt, hiSt);
    }
  }

  lemma StackDepth(los: seq<int>, his: seq<int>, ds: seq<int>, sp: nat)
    requires sp <= |los| == |his| == |ds|
    ensures |Stack(los, his, ds, sp)| == sp
  {
  }

  lemma StateRows(b: seq<byte>, start: seq<int>, s: seq<int>, st: seq<Segment>, from: int, to: int)
    requires SortState(b, start, s, st, from, to)
    ensures Rearranged(start, s, from, to + 1) && forall x :: from <= x <= to ==> 0 <= s[x] < |b|
    ensures TotalWeight(st) >= 0
  {
    hide Cmp, Rearranged, Disjoint, OrderedButPending, CommonPrefix, Segment.Within;
    WeightPositive(st, from, to);
  }

  /** Sorts g directly. */
  method SortSegment(ptr: array<int>, block: array<int>, quadrant: array<int>, nblock: int, g: Segment, budget0: int,
                     ghost loSt: int, ghost hiSt: int, ghost b: seq<byte>, ghost start: seq<int>, ghost below: seq<Segment>)
    returns (budget: int)
    requires ptr != block && ptr != quadrant && nblock == |b| <= MAX_BLOCK && Comparable(b, block[..], quadrant[..])
    requires 0 <= g.d <= 15 && 0 <= loSt <= g.lo <= g.hi + 1 <= hiSt + 1 <= ptr.Length && hiSt - loSt < nblock
    requires SortState(b, start, ptr[..], below + [g], loSt, hiSt) && CommonPrefix(b, ptr[..], g.lo, g.hi, g.d)
    modifies ptr
    ensures budget <= budget0
    ensures budget >= 0 ==> SortState(b, start, ptr[..], below, loSt, hiSt)
    ensures Rearranged(start, ptr[..], loSt, hiSt + 1) && forall x :: loSt <= x <= hiSt ==> 0 <= ptr[x] < nblock
  {
    hide Rearranged, CommonPrefix, SortState, InOrder, Comparable;
    ghost var s := ptr[..];
    budget := SimpleSort(ptr, block, quadrant, nblock, g.lo, g.hi, g.d, budget0, b);
    Abandoned(b, start, s, ptr[..], below, g, loSt, hiSt);
    if budget >= 0 {
      SortedTop(b, start, s, ptr[..], below, g, loSt, hiSt);
    }
  }

  /** Partitions g and pushes what remains of it. */
  method SplitSegment(ptr: array<int>, block: array<int>, nblock: int,
                      stackLo: array<int>, stackHi: array<int>, stackD: array<int>, sp0: int, g: Segment,
                      ghost loSt: int, ghost hiSt: int, ghost b: seq<byte>, ghost start: seq<int>, ghost below: seq<Segment>)
    returns (sp: int, ghost st: seq<Segment>)
    requires ptr != block && nblock == |b| && Extended(b, block[..])
    requires stackLo.Length == stackHi.Length == stackD.Length == STACK_SIZE
    requires stackLo != stackHi && stackLo != stackD && stackHi != stackD
    requires ptr != stackLo && ptr != stackHi && ptr != stackD && block != stackLo && block != stackHi && block != stackD
    requires 0 <= sp0 < 64 && Stack(stackLo[..], stackHi[..], stackD[..], sp0) == below
    requires 0 <= g.d <= DEPTH_THRESH && 0 <= loSt <= g.lo < g.hi <= hiSt < ptr.Length && hiSt - loSt + 1 < 0x8000_0000
    requires SortState(b, start, ptr[..], below + [g], loSt, hiSt) && CommonPrefix(b, ptr[..], g.lo, g.hi, g.d)
    modifies ptr, stackLo, stackHi, stackD
    ensures 0 <= sp <= STACK_SIZE && Stack(stackLo[..], stackHi[..], stackD[..], sp) == st
    ensures SortState(b, start, ptr[..], st, loSt, hiSt)
    ensures TotalWeight(st) < TotalWeight(below + [g])
  {
    hide Rearranged, CommonPrefix, Parted, Extended, SortState, TotalWeight, Stack, Indexable, Parts;
    ghost var s := ptr[..];
    var allEqual, n, m, med := PartitionMedian(ptr, block, nblock, g.lo, g.hi, g.d, b);
    if allEqual {
      DeeperTop(b, start, s, ptr[..], block[..], below, g, med, loSt, hiSt);
      st := below + [Segment(g.lo, g.hi, g.d + 1)];
      Store(stackLo, stackHi, stackD, sp0, Segment(g.lo, g.hi, g.d + 1));
      sp := sp0 + 1;
    } else {
      var p, q, r := BySize(Segment(g.lo, n, g.d), Segment(m, g.hi, g.d), Segment(n + 1, m - 1, g.d + 1));
      PartsOf(g, n, m, p, q, r);
      SplitTop(b, start, s, ptr[..], block[..], below, g, med, n, m, p, q, r, loSt, hiSt);
      Store(stackLo, stackHi, stackD, sp0, p);
      Store(stackLo, stackHi, stackD, sp0 + 1, q);
      Store(stackLo, stackHi, stackD, sp0 + 2, r);
      st := below + [p, q, r];
      assert below + [p] + [q] + [r] == st;
      sp := sp0 + 3;
    }
  }

  lemma StackTop(los: seq<int>, his: seq<int>, ds: seq<int>, sp: nat)
    requires 0 < sp <= |los| == |his| == |ds|
    ensures Stack(los, his, ds, sp) == Stack(los, his, ds, sp - 1) + [Segment(los[sp - 1], his[sp - 1], ds[sp - 1])]
  {
  }

  lemma PartsOf(g: Segment, n: int, m: int, p: Segment, q: Segment, r: Segment)
    requires
      var p0, q0, r0 := Segment(g.lo, n, g.d), Segment(m, g.hi, g.d), Segment(n + 1, m - 1, g.d + 1);
      || (p == p0 && q == q0 && r == r0) || (p == p0 && q == r0 && r == q0)
      || (p == q0 && q == p0 && r == r0) || (p == q0 && q == r0 && r == p0)
      || (p == r0 && q == p0 && r == q0) || (p == r0 && q == q0 && r == p0)
    ensures Parts(g, n, m, p, q, r)
  {
  }

  lemma ComparableBlock(b: seq<byte>, block: seq<int>, quadrant: seq<int>)
    requires Comparable(b, block, quadrant)
    ensures Extended(b, block)
  {
  }

  lemma Abandoned(b: seq<byte>, start: seq<int>, s: seq<int>, t: seq<int>, st: seq<Segment>, g: Segment, from: int, to: int)
    requires SortState(b, start, s, st + [g], from, to) && Rearranged(s, t, g.lo, g.hi + 1)
    ensures Rearranged(start, t, from, to + 1) && forall x :: from <= x <= to ==> 0 <= t[x] < |b|
  {
    SplitBounds(st, g, from, to);
    RowsKept(b, start, s, t, g, from, to);
  }

  lemma AllSorted(b: seq<byte>, start: seq<int>, s: seq<int>, st: seq<Segment>, from: int, to: int)
    requires SortState(b, start, s, st, from, to) && |st| == 0
    ensures Rearranged(start, s, from, to + 1)
    ensures forall x :: from <= x <= to ==> 0 <= s[x] < |b|
    ensures InOrder(b, s, from, to)
  {
    hide Rearranged, Cmp;
    forall x, y | from <= x < y <= to ensures Cmp(b, s[x], s[y], |b|) <= 0 {
      assert !PendingIn(st, x, y);
    }
  }
}
