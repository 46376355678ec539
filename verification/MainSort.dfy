/** The main block sort: two-byte buckets, quicksorts where needed, pointer scans everywhere else. */
module MainSort {
  import opened Permutations
  import opened Bits
  import opened Rotations
  import opened Counting
  import opened Rearrange
  import opened MainCompare
  import opened MainQSort
  import opened ScanTheory
  import opened PointerScan

  const SETMASK := 0x20_0000

  // ---------- the bucket table ----------

  /** ftab holds the first row of every small bucket, plus a mark on the buckets known to be sorted. */
  ghost predicate Table(b: seq<byte>, ft: seq<int>) {
    && |ft| == 65537 && |b| < SETMASK
    && forall k :: 0 <= k <= 65536 ==> ft[k] == Start(b, k) || ft[k] == Start(b, k) + SETMASK
  }

  predicate Marked(entry: int) { entry >= SETMASK }

  function Clear(entry: int): int { if entry >= SETMASK then entry - SETMASK else entry }

  function Mark(entry: int): int { if entry >= SETMASK then entry else entry + SETMASK }

  /** Marked buckets are sorted. */
  ghost predicate MarkedSorted(b: seq<byte>, p: seq<int>, ft: seq<int>)
    requires KeyPlaced(Keys(b), p) && |ft| == 65537
  {
    forall k :: 0 <= k < 65536 && Marked(ft[k]) ==> BucketSorted(b, p, k)
  }

  /** All buckets of finished big buckets are marked. */
  ghost predicate DoneMarked(ft: seq<int>, done: seq<bool>)
    requires |ft| == 65537 && |done| == 256
  {
    forall k :: 0 <= k < 65536 && done[k / 256] ==> Marked(ft[k])
  }

  /** The state of the rows, the bucket marks and the big buckets finished so far. */
  ghost predicate RowState(b: seq<byte>, p: seq<int>, ft: seq<int>, done: seq<bool>) {
    && |b| > OVERSHOOT
    && KeyPlaced(Keys(b), p) && Table(b, ft) && |done| == 256
    && MarkedSorted(b, p, ft)
    && DoneMarked(ft, done)
  }

  lemma TableEntry(b: seq<byte>, ft: seq<int>, k: int)
    requires Table(b, ft) && 0 <= k <= 65536
    ensures Clear(ft[k]) == Start(b, k) && |ft| == 65537
  {
  }

  // ---------- step 1: small buckets ----------

  lemma BucketPrefix(b: seq<byte>, p: seq<int>, k: int)
    requires |b| > OVERSHOOT && KeyPlaced(Keys(b), p)
    ensures CommonPrefix(b, p, Start(b, k), Start(b, k + 1) - 1, 2)
  {
    hide Start;
    forall x | Start(b, k) <= x < Start(b, k + 1) ensures 0 <= p[x] < |b| && Key(b, p[x]) == k {
      KeyWithin(b, p, x, k, k + 1);
    }
    forall x, y | Start(b, k) <= x < Start(b, k + 1) && Start(b, k) <= y < Start(b, k + 1)
      ensures Cmp(b, p[x], p[y], 2) == 0
    {
      SameKeyPrefix(b, p[x], p[y]);
    }
  }

  lemma SameKeyPrefix(b: seq<byte>, v: int, w: int)
    requires 0 <= v < |b| && 0 <= w < |b| && Key(b, v) == Key(b, w)
    ensures Cmp(b, v, w, 2) == 0
  {
    assert Cmp(b, Next(v, |b|), Next(w, |b|), 1) == Cmp(b, v, w, 2);
  }

  /** Rearranging the rows of one bucket keeps every row in its bucket and every other bucket as it was. */
  lemma BucketRearranged(b: seq<byte>, p: seq<int>, t: seq<int>, k: int)
    requires KeyPlaced(Keys(b), p) && Rearranged(p, t, Start(b, k), Start(b, k + 1))
    ensures KeyPlaced(Keys(b), t)
    ensures forall l :: l != k && BucketSorted(b, p, l) ==> BucketSorted(b, t, l)
  {
    hide Start, Key, Cmp, Rearranged, KeyPlaced, BucketSorted;
    BucketKeys(b, p, t, k);
    forall l | l != k && BucketSorted(b, p, l) ensures BucketSorted(b, t, l) {
      OtherBucket(b, p, t, k, l);
    }
  }

  lemma PlacedPerm(b: seq<byte>, p: seq<int>)
    requires KeyPlaced(Keys(b), p)
    ensures IsPerm(p, |b|)
  {
    hide IsPerm;
  }

  lemma BucketKeys(b: seq<byte>, p: seq<int>, t: seq<int>, k: int)
    requires KeyPlaced(Keys(b), p) && Rearranged(p, t, Start(b, k), Start(b, k + 1))
    ensures KeyPlaced(Keys(b), t)
  {
    hide Start, Key, Cmp, Rearranged, KeyPlaced, IsPerm;
    PlacedPerm(b, p);
    RearrangedPerm(p, t, Start(b, k), Start(b, k + 1), |b|);
    RearrangedFrame(p, t, Start(b, k), Start(b, k + 1));
    PermEntries(p, |b|);
    PermEntries(t, |b|);
    forall x | 0 <= x < |b| ensures Key(b, t[x]) == Key(b, p[x]) {
      if Start(b, k) <= x < Start(b, k + 1) {
        var y := RearrangedFrom(p, t, Start(b, k), Start(b, k + 1), x);
        BucketRows(b, k);
        KeyWithin(b, p, x, k, k + 1);
        KeyWithin(b, p, y, k, k + 1);
      }
    }
    KeyPlacedSame(b, p, t);
  }

  lemma PermEntries(p: seq<int>, n: int)
    requires IsPerm(p, n)
    ensures |p| == n && forall x :: 0 <= x < n ==> 0 <= p[x] < n
  {
  }

  lemma BucketRows(b: seq<byte>, k: int)
    ensures 0 <= Start(b, k) && Start(b, k + 1) <= |b|
  {
  }

  lemma OtherBucket(b: seq<byte>, p: seq<int>, t: seq<int>, k: int, l: int)
    requires KeyPlaced(Keys(b), p) && KeyPlaced(Keys(b), t) && Rearranged(p, t, Start(b, k), Start(b, k + 1))
    requires l != k && BucketSorted(b, p, l)
    ensures BucketSorted(b, t, l)
  {
    RearrangedFrame(p, t, Start(b, k), Start(b, k + 1));
    hide Start, Cmp, Rearranged;
    forall x, y | Start(b, l) <= x < y < Start(b, l + 1) ensures Cmp(b, t[x], t[y], |b|) <= 0 {
      OtherRow(b, k, l, x);
      OtherRow(b, k, l, y);
    }
  }

  lemma OtherRow(b: seq<byte>, k: int, l: int, x: int)
    requires k != l && Start(b, l) <= x < Start(b, l + 1)
    ensures 0 <= x < |b| && !(Start(b, k) <= x < Start(b, k + 1))
  {
    if Start(b, k) <= x < Start(b, k + 1) {
      OneBucket(Keys(b), x, k, l);
    }
  }

  lemma SortedBucket(b: seq<byte>, t: seq<int>, k: int)
    requires KeyPlaced(Keys(b), t) && InOrder(b, t, Start(b, k), Start(b, k + 1) - 1)
    ensures BucketSorted(b, t, k)
  {
    hide Start, Cmp;
    forall x, y | Start(b, k) <= x < y < Start(b, k + 1) ensures Cmp(b, t[x], t[y], |b|) <= 0 {
    }
  }

  lemma MarkBucket(b: seq<byte>, p: seq<int>, ft: seq<int>, done: seq<bool>, k: int)
    requires RowState(b, p, ft, done) && 0 <= k < 65536 && BucketSorted(b, p, k)
    ensures RowState(b, p, ft[k := Mark(ft[k])], done) && Marked(Mark(ft[k]))
  {
    hide Start, BucketSorted;
  }

  lemma BucketResorted(b: seq<byte>, p: seq<int>, t: seq<int>, ft: seq<int>, done: seq<bool>, k: int)
    requires RowState(b, p, ft, done) && 0 <= k < 65536 && !Marked(ft[k])
    requires Rearranged(p, t, Start(b, k), Start(b, k + 1))
    requires |t| == |b| && forall x :: Start(b, k) <= x < Start(b, k + 1) ==> 0 <= t[x] < |b|
    requires InOrder(b, t, Start(b, k), Start(b, k + 1) - 1)
    ensures RowState(b, t, ft, done) && BucketSorted(b, t, k)
  {
    hide Start, BucketSorted, Rearranged, InOrder;
    BucketRearranged(b, p, t, k);
    SortedBucket(b, t, k);
  }

  /** Step 1: quicksorts the buckets [ss, j], j != ss, that are not yet known to be sorted. */
  method SortSmallBuckets(ptr: array<int>, block: array<int>, quadrant: array<int>, ftab: array<int>, nblock: int,
                          ss: byte, budget0: int, ghost done: seq<bool>, ghost b: seq<byte>)
    returns (budget: int)
    requires ptr != block && ptr != quadrant && ptr != ftab && ftab != block && ftab != quadrant
    requires nblock == |b| <= MAX_BLOCK && nblock <= ptr.Length && ftab.Length == 65537
    requires Comparable(b, block[..], quadrant[..])
    requires RowState(b, ptr[..nblock], ftab[..], done) && budget0 >= 0
    modifies ptr, ftab
    ensures budget >= 0 ==> RowState(b, ptr[..nblock], ftab[..], done)
    ensures budget >= 0 ==> forall k :: 256 * ss <= k < 256 * ss + 256 && k != 256 * ss + ss ==> Marked(ftab[k])
    ensures forall x :: nblock <= x < ptr.Length ==> ptr[x] == old(ptr[x])
  {
    hide RowState, Comparable;
    budget := budget0;
    for j := 0 to 256
      invariant Comparable(b, block[..], quadrant[..]) && budget >= 0
      invariant RowState(b, ptr[..nblock], ftab[..], done)
      invariant forall k :: 256 * ss <= k < 256 * ss + j && k != 256 * ss + ss ==> Marked(ftab[k])
      invariant forall x :: nblock <= x < ptr.Length ==> ptr[x] == old(ptr[x])
    {
      if j != ss {
        var sb := 256 * ss + j;
        budget := SortBucket(ptr, block, quadrant, ftab, nblock, sb, budget, done, b);
        if budget < 0 { return; }
        MarkBucket(b, ptr[..nblock], ftab[..], done, sb);
        ghost var ft := ftab[..];
        ftab[sb] := Mark(ftab[sb]);
        assert ftab[..] == ft[sb := Mark(ft[sb])];
      }
    }
  }

  /** Sorts the rows of one small bucket, unless it is marked or too small to need it. */
  method SortBucket(ptr: array<int>, block: array<int>, quadrant: array<int>, ftab: array<int>, nblock: int,
                    sb: int, budget0: int, ghost done: seq<bool>, ghost b: seq<byte>)
    returns (budget: int)
    requires ptr != block && ptr != quadrant && ptr != ftab
    requires nblock == |b| <= MAX_BLOCK && nblock <= ptr.Length && ftab.Length == 65537 && 0 <= sb < 65536
    requires Comparable(b, block[..], quadrant[..])
    requires RowState(b, ptr[..nblock], ftab[..], done) && budget0 >= 0
    modifies ptr
    ensures budget >= 0 ==> RowState(b, ptr[..nblock], ftab[..], done) && BucketSorted(b, ptr[..nblock], sb)
    ensures forall x :: nblock <= x < ptr.Length ==> ptr[x] == old(ptr[x])
  {
    hide Comparable, Start, Rearranged, InOrder, CommonPrefix, BucketSorted, Cmp;
    budget := budget0;
    ghost var s, p := ptr[..], ptr[..nblock];
    RowFacts(b, p, ftab[..], done, sb);
    if !Marked(ftab[sb]) {
      var lo, hi := Clear(ftab[sb]), Clear(ftab[sb + 1]) - 1;
      if hi > lo {
        PrefixOfLonger(b, s, p, lo, hi, 2);
        budget := QSort3(ptr, block, quadrant, nblock, lo, hi, 2, budget, b);
        RearrangedPrefix(s, ptr[..], lo, hi + 1, nblock);
        RearrangedFrame(s, ptr[..], lo, hi + 1);
        if budget >= 0 {
          OrderOfPrefix(b, ptr[..], ptr[..nblock], lo, hi);
          BucketResorted(b, p, ptr[..nblock], ftab[..], done, sb);
        }
      } else {
        TinyBucket(b, p, sb);
      }
    }
  }

  lemma RowFacts(b: seq<byte>, p: seq<int>, ft: seq<int>, done: seq<bool>, k: int)
    requires RowState(b, p, ft, done) && 0 <= k < 65536
    ensures |b| > OVERSHOOT && KeyPlaced(Keys(b), p) && |ft| == 65537
    ensures Clear(ft[k]) == Start(b, k) && Clear(ft[k + 1]) == Start(b, k + 1) && Start(b, k) <= Start(b, k + 1)
    ensures Marked(ft[k]) ==> BucketSorted(b, p, k)
    ensures CommonPrefix(b, p, Start(b, k), Start(b, k + 1) - 1, 2)
  {
    StartMono(b, k, k + 1);
    BucketPrefix(b, p, k);
  }

  lemma PrefixOfLonger(b: seq<byte>, s: seq<int>, p: seq<int>, lo: int, hi: int, d: nat)
    requires |p| <= |s| && p == s[..|p|] && CommonPrefix(b, p, lo, hi, d)
    ensures CommonPrefix(b, s, lo, hi, d)
  {
    hide Cmp;
    assert forall x :: lo <= x <= hi ==> s[x] == p[x];
  }

  lemma OrderOfPrefix(b: seq<byte>, s: seq<int>, p: seq<int>, lo: int, hi: int)
    requires |p| <= |s| && p == s[..|p|] && 0 <= lo && hi < |p| && (forall x :: lo <= x <= hi ==> 0 <= s[x] < |b|)
    requires InOrder(b, s, lo, hi)
    ensures forall x :: lo <= x <= hi ==> 0 <= p[x] < |b|
    ensures InOrder(b, p, lo, hi)
  {
    hide Cmp;
    assert forall x :: lo <= x <= hi ==> s[x] == p[x];
  }

  lemma TinyBucket(b: seq<byte>, p: seq<int>, k: int)
    requires KeyPlaced(Keys(b), p) && Start(b, k + 1) - 1 <= Start(b, k)
    ensures BucketSorted(b, p, k)
  {
  }

  // ---------- step 2: the pointer scan ----------

  /** The arrays of a scan in progress. */
  ghost predicate Scanning(b: seq<byte>, c: byte, p0: seq<int>, p: seq<int>, done: seq<bool>, cs: seq<int>, ce: seq<int>, ls: Lists) {
    && |b| > OVERSHOOT
    && ScanState(b, c, p0, p, done, cs, ce, ls)
    && Complete(b, c, ls)
  }

  lemma SmallBucketsSorted(b: seq<byte>, p: seq<int>, ft: seq<int>, done: seq<bool>, c: byte)
    requires RowState(b, p, ft, done)
    requires forall k :: 256 * c <= k < 256 * c + 256 && k != 256 * c + c ==> Marked(ft[k])
    ensures KeyPlaced(Keys(b), p) && OthersSorted(b, p, c)
  {
    hide BucketSorted, KeyPlaced;
  }

  /** First and last open rows of the buckets [u, ss]. */
  method BucketLimits(ftab: array<int>, ss: byte, copyStart: array<int>, copyEnd: array<int>, ghost b: seq<byte>)
    requires ftab.Length == 65537 && copyStart.Length == copyEnd.Length == 256 && copyStart != copyEnd
    requires copyStart != ftab && copyEnd != ftab && Table(b, ftab[..])
    modifies copyStart, copyEnd
    ensures forall u: byte :: copyStart[u] == Start(b, 256 * u + ss) && copyEnd[u] == Start(b, 256 * u + ss + 1) - 1
  {
    hide Start, Table;
    for j := 0 to 256
      invariant forall u: byte :: u < j ==> copyStart[u] == Start(b, 256 * u + ss) && copyEnd[u] == Start(b, 256 * u + ss + 1) - 1
    {
      TableEntry(b, ftab[..], 256 * j + ss);
      TableEntry(b, ftab[..], 256 * j + ss + 1);
      copyStart[j] := Clear(ftab[256 * j + ss]);
      copyEnd[j] := Clear(ftab[256 * j + ss + 1]) - 1;
    }
  }

  function PrevRow(v: int, nblock: int): (k: int)
    requires 0 <= v < nblock
    ensures 0 <= k < nblock && k == Prev(v, nblock)
  {
    if v - 1 < 0 then v - 1 + nblock else v - 1
  }

  lemma RowUnderLow(b: seq<byte>, c: byte, p0: seq<int>, p: seq<int>, done: seq<bool>, cs: seq<int>, ce: seq<int>, ls: Lists, j: int)
    requires Scanning(b, c, p0, p, done, cs, ce, ls) && ls.ma < |ls.a| && j == Start(b, 256 * c) + ls.ma
    ensures Growing(b, c, ls) && |done| == |cs| == |ce| == 256 && |p| == |b|
    ensures 0 <= j < |b| && 0 <= p[j] < |b| && p[j] == ls.a[ls.ma]
  {
    hide Start, AllHeads, ScanState;
    Limits(b, c, p0, p, done, cs, ce, ls);
    StateLists(b, c, p0, p, done, cs, ce, ls);
    LowRows(b, c, p0, p, done, cs, ce, ls, ls.ma);
  }

  lemma RowUnderHigh(b: seq<byte>, c: byte, p0: seq<int>, p: seq<int>, done: seq<bool>, cs: seq<int>, ce: seq<int>, ls: Lists, j: int)
    requires Scanning(b, c, p0, p, done, cs, ce, ls) && ls.mh < |ls.h| && j == Start(b, 256 * (c + 1)) - 1 - ls.mh
    ensures Growing(b, c, ls) && |done| == |cs| == |ce| == 256 && |p| == |b|
    ensures 0 <= j < |b| && 0 <= p[j] < |b| && p[j] == ls.h[ls.mh]
  {
    hide Start, AllHeads, ScanState;
    Limits(b, c, p0, p, done, cs, ce, ls);
    StateLists(b, c, p0, p, done, cs, ce, ls);
    HighRows(b, c, p0, p, done, cs, ce, ls, ls.mh);
  }

  lemma ScanningOpen(b: seq<byte>, c: byte, p0: seq<int>, p: seq<int>, done: seq<bool>, cs: seq<int>, ce: seq<int>, ls: Lists)
    requires Scanning(b, c, p0, p, done, cs, ce, ls)
    ensures |b| > OVERSHOOT && ScanState(b, c, p0, p, done, cs, ce, ls) && Complete(b, c, ls)
  {
  }

  /** The heads of the lists do not change in a step, so nothing but the scan state does. */
  lemma ScanningClose(b: seq<byte>, c: byte, p0: seq<int>, p: seq<int>, done: seq<bool>, cs: seq<int>, ce: seq<int>, ls: Lists, r: Lists)
    requires |b| > OVERSHOOT && ScanState(b, c, p0, p, done, cs, ce, r) && Complete(b, c, ls) && r.il == ls.il && r.ih == ls.ih
    ensures Scanning(b, c, p0, p, done, cs, ce, r)
  {
    hide ScanState, AllHeads;
  }

  lemma NextLists(b: seq<byte>, c: byte, ls: Lists)
    requires Growing(b, c, ls)
    ensures ls.ma < |ls.a| ==> var r := NextLow(b, c, ls); r.il == ls.il && r.ih == ls.ih && r.ma == ls.ma + 1 && r.mh == ls.mh
    ensures ls.mh < |ls.h| ==>
              var r := NextHigh(b, c, ls); r.il == ls.il && r.ih == ls.ih && r.mh == ls.mh + 1 && r.ma == ls.ma && r.a == ls.a
  {
    hide Growing;
  }

  lemma ScanningLow(b: seq<byte>, c: byte, p0: seq<int>, p: seq<int>, done: seq<bool>, cs: seq<int>, ce: seq<int>, ls: Lists, v: int)
    requires Scanning(b, c, p0, p, done, cs, ce, ls) && Growing(b, c, ls)
    requires ls.ma < |ls.a| && 0 <= v < |b| && v == ls.a[ls.ma] && |done| == |cs| == 256
    ensures var k := Prev(v, |b|); var r := NextLow(b, c, ls);
            && r.ma == ls.ma + 1 && r.mh == ls.mh
            && if done[b[k]] then Scanning(b, c, p0, p, done, cs, ce, r)
               else 0 <= cs[b[k]] < |b| == |p| && Scanning(b, c, p0, p[cs[b[k]] := k], done, cs[b[k] := cs[b[k]] + 1], ce, r)
  {
    hide Scanning, ScanState, Complete, Growing, NextLow, Grown;
    ScanningOpen(b, c, p0, p, done, cs, ce, ls);
    Limits(b, c, p0, p, done, cs, ce, ls);
    NextLists(b, c, ls);
    StepLow(b, c, p0, p, done, cs, ce, ls);
    var k, r := Prev(v, |b|), NextLow(b, c, ls);
    if done[b[k]] {
      ScanningClose(b, c, p0, p, done, cs, ce, ls, r);
    } else {
      ScanningClose(b, c, p0, p[cs[b[k]] := k], done, cs[b[k] := cs[b[k]] + 1], ce, ls, r);
    }
  }

  lemma ScanningHigh(b: seq<byte>, c: byte, p0: seq<int>, p: seq<int>, done: seq<bool>, cs: seq<int>, ce: seq<int>, ls: Lists, v: int)
    requires Scanning(b, c, p0, p, done, cs, ce, ls) && Growing(b, c, ls)
    requires ls.mh < |ls.h| && 0 <= v < |b| && v == ls.h[ls.mh] && |done| == |ce| == 256
    ensures var k := Prev(v, |b|); var r := NextHigh(b, c, ls);
            && r.mh == ls.mh + 1 && r.ma == ls.ma && r.a == ls.a
            && if done[b[k]] then Scanning(b, c, p0, p, done, cs, ce, r)
               else 0 <= ce[b[k]] < |b| == |p| && Scanning(b, c, p0, p[ce[b[k]] := k], done, cs, ce[b[k] := ce[b[k]] - 1], r)
  {
    hide Scanning, ScanState, Complete, Growing, NextHigh, Grown;
    ScanningOpen(b, c, p0, p, done, cs, ce, ls);
    Limits(b, c, p0, p, done, cs, ce, ls);
    NextLists(b, c, ls);
    StepHigh(b, c, p0, p, done, cs, ce, ls);
    var k, r := Prev(v, |b|), NextHigh(b, c, ls);
    if done[b[k]] {
      ScanningClose(b, c, p0, p, done, cs, ce, ls, r);
    } else {
      ScanningClose(b, c, p0, p[ce[b[k]] := k], done, cs, ce[b[k] := ce[b[k]] - 1], ls, r);
    }
  }

  /** Scans the entry at row j from the front. */
  method ScanLow(ptr: array<int>, block: array<int>, nblock: int, j: int, ghost c: byte, bigDone: array<bool>,
                 copyStart: array<int>, copyEnd: array<int>, ghost b: seq<byte>, ghost p0: seq<int>, ghost ls: Lists)
    returns (ghost ls': Lists)
    requires ptr != block && ptr != copyStart && ptr != copyEnd && copyStart != copyEnd && copyStart != block
    requires nblock == |b| && nblock <= ptr.Length && nblock <= block.Length
    requires copyStart.Length == copyEnd.Length == bigDone.Length == 256
    requires forall x :: 0 <= x < nblock ==> block[x] == b[x]
    requires Scanning(b, c, p0, ptr[..nblock], bigDone[..], copyStart[..], copyEnd[..], ls)
    requires ls.ma < |ls.a| && j == Start(b, 256 * c) + ls.ma
    modifies ptr, copyStart
    ensures Scanning(b, c, p0, ptr[..nblock], bigDone[..], copyStart[..], copyEnd[..], ls')
    ensures ls'.ma == ls.ma + 1 && ls'.mh == ls.mh
    ensures forall x :: nblock <= x < ptr.Length ==> ptr[x] == old(ptr[x])
  {
    hide Scanning, Growing, Start, NextLow, Prev;
    ghost var p, cs := ptr[..nblock], copyStart[..];
    RowUnderLow(b, c, p0, p, bigDone[..], cs, copyEnd[..], ls, j);
    ScanningLow(b, c, p0, p, bigDone[..], cs, copyEnd[..], ls, p[j]);
    ls' := NextLow(b, c, ls);
    var k := PrevRow(ptr[j], nblock);
    var c1 := block[k];
    if !bigDone[c1] {
      ptr[copyStart[c1]] := k;
      copyStart[c1] := copyStart[c1] + 1;
      assert ptr[..nblock] == p[cs[c1] := k] && copyStart[..] == cs[c1 := cs[c1] + 1];
    }
  }

  /** Scans the entry at row j from the back. */
  method ScanHigh(ptr: array<int>, block: array<int>, nblock: int, j: int, ghost c: byte, bigDone: array<bool>,
                  copyStart: array<int>, copyEnd: array<int>, ghost b: seq<byte>, ghost p0: seq<int>, ghost ls: Lists)
    returns (ghost ls': Lists)
    requires ptr != block && ptr != copyStart && ptr != copyEnd && copyStart != copyEnd && copyEnd != block
    requires nblock == |b| && nblock <= ptr.Length && nblock <= block.Length
    requires copyStart.Length == copyEnd.Length == bigDone.Length == 256
    requires forall x :: 0 <= x < nblock ==> block[x] == b[x]
    requires Scanning(b, c, p0, ptr[..nblock], bigDone[..], copyStart[..], copyEnd[..], ls)
    requires ls.mh < |ls.h| && j == Start(b, 256 * (c + 1)) - 1 - ls.mh
    modifies ptr, copyEnd
    ensures Scanning(b, c, p0, ptr[..nblock], bigDone[..], copyStart[..], copyEnd[..], ls')
    ensures ls'.mh == ls.mh + 1 && ls'.ma == ls.ma && ls'.a == ls.a
    ensures forall x :: nblock <= x < ptr.Length ==> ptr[x] == old(ptr[x])
  {
    hide Scanning, Growing, Start, NextHigh, Prev;
    ghost var p, ce := ptr[..nblock], copyEnd[..];
    RowUnderHigh(b, c, p0, p, bigDone[..], copyStart[..], ce, ls, j);
    ScanningHigh(b, c, p0, p, bigDone[..], copyStart[..], ce, ls, p[j]);
    ls' := NextHigh(b, c, ls);
    var k := PrevRow(ptr[j], nblock);
    var c1 := block[k];
    if !bigDone[c1] {
      ptr[copyEnd[c1]] := k;
      copyEnd[c1] := copyEnd[c1] - 1;
      assert ptr[..nblock] == p[ce[c1] := k] && copyEnd[..] == ce[c1 := ce[c1] - 1];
    }
  }

  /** What a finished scan of big bucket c has achieved. */
  ghost predicate Scanned(b: seq<byte>, c: byte, p0: seq<int>, p: seq<int>, done: seq<bool>) {
    && |p0| == |b| && |done| == 256 && KeyPlaced(Keys(b), p0) && KeyPlaced(Keys(b), p)
    && (forall u: byte :: !done[u] ==> BucketSorted(b, p, 256 * u + c))
    && (forall x :: 0 <= x < |b| && !Moved(b, c, done, p0[x]) ==> p[x] == p0[x])
  }

  lemma ScanningStart(b: seq<byte>, p: seq<int>, ft: seq<int>, c: byte, done: seq<bool>, cs: seq<int>, ce: seq<int>)
    requires RowState(b, p, ft, done) && !done[c] && |cs| == |ce| == 256
    requires forall k :: 256 * c <= k < 256 * c + 256 && k != 256 * c + c ==> Marked(ft[k])
    requires forall u: byte :: cs[u] == Start(b, 256 * u + c) && ce[u] == Start(b, 256 * u + c + 1) - 1
    ensures |p| == |b| && Scanning(b, c, p, p, done, cs, ce, StartLists(b, p, c))
    ensures StartLists(b, p, c).ma == 0 && StartLists(b, p, c).mh == 0
  {
    SmallBucketsSorted(b, p, ft, done, c);
    hide BucketSorted, Start, ScanState, AllHeads, Complete;
    ScanStart(b, p, c, done, cs, ce);
    StartComplete(b, p, c);
  }

  lemma ScanningLimits(b: seq<byte>, c: byte, p0: seq<int>, p: seq<int>, done: seq<bool>, cs: seq<int>, ce: seq<int>, ls: Lists)
    requires Scanning(b, c, p0, p, done, cs, ce, ls)
    ensures |cs| == |ce| == |done| == 256 && |p0| == |b|
    ensures cs[c] == Start(b, 256 * c) + |ls.a| && ce[c] == Start(b, 256 * (c + 1)) - 1 - |ls.h|
    ensures ls.ma <= |ls.a| && ls.mh <= |ls.h| && cs[c] <= ce[c] + 1
    ensures |ls.a| <= |b| && |ls.h| <= |b|
  {
    Limits(b, c, p0, p, done, cs, ce, ls);
    BigBucket(b, c);
    hide ScanState;
  }

  lemma ScanningEnd(b: seq<byte>, c: byte, p0: seq<int>, p: seq<int>, done: seq<bool>, cs: seq<int>, ce: seq<int>, ls: Lists)
    requires Scanning(b, c, p0, p, done, cs, ce, ls) && ls.ma == |ls.a| && ls.mh == |ls.h|
    ensures |cs| == |ce| == 256 && |p0| == |b|
    ensures Scanned(b, c, p0, p, done)
    ensures cs[c] - 1 == ce[c] || (cs[c] == 0 && ce[c] == |b| - 1)
  {
    hide Scanning, ScanState, Complete, BucketSorted, Start, Moved, KeyPlaced;
    ScanningOpen(b, c, p0, p, done, cs, ce, ls);
    ScanEnd(b, c, p0, p, done, cs, ce, ls);
    StateLists(b, c, p0, p, done, cs, ce, ls);
    ScanningRows(b, c, p0, p, done, cs, ce, ls);
  }

  lemma ScanningRows(b: seq<byte>, c: byte, p0: seq<int>, p: seq<int>, done: seq<bool>, cs: seq<int>, ce: seq<int>, ls: Lists)
    requires Scanning(b, c, p0, p, done, cs, ce, ls)
    ensures |p0| == |b| && KeyPlaced(Keys(b), p0)
  {
  }

  /** Step 2: scans big bucket ss from both ends, putting every open bucket [u, ss] in order. */
  method ScanBucket(ptr: array<int>, block: array<int>, ftab: array<int>, nblock: int, ss: byte,
                    bigDone: array<bool>, ghost b: seq<byte>)
    requires ptr != block && ptr != ftab && nblock == |b| <= MAX_BLOCK
    requires nblock <= ptr.Length && nblock <= block.Length && ftab.Length == 65537 && bigDone.Length == 256
    requires forall x :: 0 <= x < nblock ==> block[x] == b[x]
    requires RowState(b, ptr[..nblock], ftab[..], bigDone[..]) && !bigDone[ss]
    requires forall k :: 256 * ss <= k < 256 * ss + 256 && k != 256 * ss + ss ==> Marked(ftab[k])
    modifies ptr
    ensures Scanned(b, ss, old(ptr[..nblock]), ptr[..nblock], bigDone[..])
    ensures forall x :: nblock <= x < ptr.Length ==> ptr[x] == old(ptr[x])
  {
    hide Start, RowState, Scanning, Scanned, Table;
    ghost var p0 := ptr[..nblock];
    RowTable(b, p0, ftab[..], bigDone[..], ss);
    var copyStart, copyEnd := new int[256], new int[256];
    BucketLimits(ftab, ss, copyStart, copyEnd, b);
    ScanningStart(b, p0, ftab[..], ss, bigDone[..], copyStart[..], copyEnd[..]);
    ghost var ls := StartLists(b, p0, ss);
    ScanningLimits(b, ss, p0, p0, bigDone[..], copyStart[..], copyEnd[..], ls);
    var j := Clear(ftab[256 * ss]);
    while j < copyStart[ss]
      invariant Scanning(b, ss, p0, ptr[..nblock], bigDone[..], copyStart[..], copyEnd[..], ls)
      invariant j == Start(b, 256 * ss) + ls.ma && ls.ma <= |ls.a| && ls.mh == 0
      invariant copyStart[ss] == Start(b, 256 * ss) + |ls.a| && |ls.a| <= nblock
      invariant forall x :: nblock <= x < ptr.Length ==> ptr[x] == old(ptr[x])
      decreases nblock - ls.ma
    {
      ls := ScanLow(ptr, block, nblock, j, ss, bigDone, copyStart, copyEnd, b, p0, ls);
      ScanningLimits(b, ss, p0, ptr[..nblock], bigDone[..], copyStart[..], copyEnd[..], ls);
      j := j + 1;
    }
    ScanFromBack(ptr, block, ftab, nblock, ss, bigDone, copyStart, copyEnd, b, p0, ls);
  }

  method ScanFromBack(ptr: array<int>, block: array<int>, ftab: array<int>, nblock: int, ss: byte, bigDone: array<bool>,
                      copyStart: array<int>, copyEnd: array<int>, ghost b: seq<byte>, ghost p0: seq<int>, ghost ls0: Lists)
    requires ptr != block && ptr != copyStart && ptr != copyEnd && copyStart != copyEnd && copyEnd != block
    requires ptr != ftab && copyEnd != ftab
    requires nblock == |b| && nblock <= ptr.Length && nblock <= block.Length && ftab.Length == 65537
    requires copyStart.Length == copyEnd.Length == bigDone.Length == 256
    requires forall x :: 0 <= x < nblock ==> block[x] == b[x]
    requires Clear(ftab[256 * (ss + 1)]) == Start(b, 256 * (ss + 1))
    requires Scanning(b, ss, p0, ptr[..nblock], bigDone[..], copyStart[..], copyEnd[..], ls0)
    requires ls0.ma == |ls0.a| && ls0.mh == 0
    modifies ptr, copyEnd
    ensures Scanned(b, ss, p0, ptr[..nblock], bigDone[..])
    ensures forall x :: nblock <= x < ptr.Length ==> ptr[x] == old(ptr[x])
  {
    hide Start, Scanning, Scanned;
    ghost var ls := ls0;
    ScanningLimits(b, ss, p0, ptr[..nblock], bigDone[..], copyStart[..], copyEnd[..], ls);
    var j := Clear(ftab[256 * (ss + 1)]) - 1;
    while j > copyEnd[ss]
      invariant Scanning(b, ss, p0, ptr[..nblock], bigDone[..], copyStart[..], copyEnd[..], ls)
      invariant j == Start(b, 256 * (ss + 1)) - 1 - ls.mh && ls.mh <= |ls.h| && ls.ma == |ls.a|
      invariant copyEnd[ss] == Start(b, 256 * (ss + 1)) - 1 - |ls.h| && |ls.h| <= nblock
      invariant forall x :: nblock <= x < ptr.Length ==> ptr[x] == old(ptr[x])
      decreases nblock - ls.mh
    {
      ls := ScanHigh(ptr, block, nblock, j, ss, bigDone, copyStart, copyEnd, b, p0, ls);
      ScanningLimits(b, ss, p0, ptr[..nblock], bigDone[..], copyStart[..], copyEnd[..], ls);
      j := j - 1;
    }
    ScanningEnd(b, ss, p0, ptr[..nblock], bigDone[..], copyStart[..], copyEnd[..], ls);
    assert copyStart[ss] - 1 == copyEnd[ss] || (copyStart[ss] == 0 && copyEnd[ss] == nblock - 1);  // assertion 1007
  }

  lemma RowTable(b: seq<byte>, p: seq<int>, ft: seq<int>, done: seq<bool>, ss: byte)
    requires RowState(b, p, ft, done)
    ensures Table(b, ft) && |ft| == 65537 && |p| == |b|
    ensures Clear(ft[256 * ss]) == Start(b, 256 * ss) && Clear(ft[256 * (ss + 1)]) == Start(b, 256 * (ss + 1))
  {
  }

  /** After a scan, marked buckets are still sorted, and so is every bucket [u, c]. */
  lemma AfterScan(b: seq<byte>, c: byte, p0: seq<int>, p: seq<int>, ft: seq<int>, done: seq<bool>)
    requires RowState(b, p0, ft, done) && Scanned(b, c, p0, p, done)
    ensures RowState(b, p, ft, done)
    ensures forall u: byte :: BucketSorted(b, p, 256 * u + c)
  {
    hide Start, BucketSorted, KeyPlaced, Keys, Moved;
    forall k | 0 <= k < 65536 && Marked(ft[k]) ensures BucketSorted(b, p, k) {
      KeptBucket(b, c, p0, p, done, k);
    }
    forall u: byte ensures BucketSorted(b, p, 256 * u + c) {
      if done[u] {
        assert (256 * u + c) / 256 == u;
        assert Marked(ft[256 * u + c]);
      }
    }
  }

  lemma KeptBucket(b: seq<byte>, c: byte, p0: seq<int>, p: seq<int>, done: seq<bool>, k: int)
    requires Scanned(b, c, p0, p, done) && 0 <= k < 65536 && BucketSorted(b, p0, k)
    ensures BucketSorted(b, p, k)
  {
    var u: byte := k / 256;
    if k % 256 == c && !done[u] {
      assert k == 256 * u + c;
    } else {
      forall x, y | Start(b, k) <= x < y < Start(b, k + 1) ensures Cmp(b, p[x], p[y], |b|) <= 0 {
        KeptRow(b, c, p0, p, done, k, x);
        KeptRow(b, c, p0, p, done, k, y);
      }
    }
  }

  lemma KeptRow(b: seq<byte>, c: byte, p0: seq<int>, p: seq<int>, done: seq<bool>, k: int, x: int)
    requires Scanned(b, c, p0, p, done) && 0 <= k < 65536 && Start(b, k) <= x < Start(b, k + 1)
    requires k % 256 != c || done[k / 256]
    ensures 0 <= x < |b| && p[x] == p0[x]
  {
    KeyWithin(b, p0, x, k, k + 1);
    hide Start, KeyPlaced, BucketSorted;
    var v := p0[x];
    assert b[v] == k / 256 && b[Next(v, |b|)] == k % 256;
  }

  /** Marks the buckets [j, ss], which the scan has put in order. */
  method MarkColumn(ftab: array<int>, ss: byte, ghost b: seq<byte>, ghost p: seq<int>, ghost done: seq<bool>)
    requires ftab.Length == 65537 && RowState(b, p, ftab[..], done)
    requires forall u: byte :: BucketSorted(b, p, 256 * u + ss)
    modifies ftab
    ensures RowState(b, p, ftab[..], done)
    ensures forall k :: 0 <= k < 65536 && (old(Marked(ftab[k])) || k % 256 == ss) ==> Marked(ftab[k])
  {
    hide RowState, BucketSorted, KeyPlaced;
    ghost var ft0 := ftab[..];
    for j := 0 to 256
      invariant RowState(b, p, ftab[..], done)
      invariant forall k :: 0 <= k < 65536 && Marked(ft0[k]) ==> Marked(ftab[k])
      invariant forall k :: 0 <= k < 256 * j && k % 256 == ss ==> Marked(ftab[k])
    {
      var sb := 256 * j + ss;
      MarkBucket(b, p, ftab[..], done, sb);
      ghost var ft := ftab[..];
      ftab[sb] := Mark(ftab[sb]);
      assert ftab[..] == ft[sb := Mark(ft[sb])];
      ColumnStep(j, ss);
    }
  }

  lemma ColumnStep(j: int, ss: byte)
    ensures forall k :: 256 * j <= k < 256 * (j + 1) && k % 256 == ss ==> k == 256 * j + ss
  {
  }

  /** Big bucket ss is finished: all its buckets are marked. */
  lemma FinishBig(b: seq<byte>, p: seq<int>, ft: seq<int>, done: seq<bool>, ss: byte)
    requires RowState(b, p, ft, done)
    requires forall k :: 256 * ss <= k < 256 * ss + 256 ==> Marked(ft[k])
    ensures RowState(b, p, ft, done[ss := true])
  {
    hide BucketSorted, KeyPlaced, Start;
    var done' := done[ss := true];
    forall k | 0 <= k < 65536 && done'[k / 256] ensures Marked(ft[k]) {
      if k / 256 == ss {
        assert 256 * ss <= k < 256 * ss + 256;
      }
    }
  }

  // ---------- step 3: quadrants ----------

  /** One bit further. */
  lemma ShrNext(x: int, s: nat)
    ensures Shr(x, s + 1) == Shr(x, s) / 2 && Shr(x, 0) == x
  {
    var p := Pow2(s);
    var q, e, r := x / p / 2, x / p % 2, x % p;
    hide Pow2;
    assert x == (x / p) * p + r && x / p == 2 * q + e;
    assert (2 * q + e) * p == q * (2 * p) + e * p;
    DivUnique(x, 2 * p, q, e * p + r);
  }

  lemma {:induction false} ShrMono(x: int, y: int, s: nat)
    requires x <= y
    ensures Shr(x, s) <= Shr(y, s)
  {
    ShrNext(x, if s > 0 then s - 1 else 0);
    ShrNext(y, if s > 0 then s - 1 else 0);
    hide Shr;
    if s > 0 { ShrMono(x, y, s - 1); }
  }

  lemma {:induction false} ShrRange(x: int, s: nat)
    requires x >= 0
    ensures 0 <= Shr(x, s) <= x
  {
    ShrNext(x, if s > 0 then s - 1 else 0);
    hide Shr;
    if s > 0 { ShrRange(x, s - 1); }
  }

  lemma ShrLess(x: int, s: nat)
    requires x >= 1
    ensures Shr(x, s + 1) < Shr(x, s) || Shr(x, s) == 0
  {
    ShrNext(x, s);
    ShrRange(x, s);
    hide Shr;
  }

  /** Positions of open big buckets still have quadrant zero. */
  ghost predicate OpenZero(b: seq<byte>, quad: seq<int>, done: seq<bool>)
    requires |quad| >= |b| && |done| == 256
  {
    forall i :: 0 <= i < |b| && !done[b[i]] ==> quad[i] == 0
  }

  /** quad' is quad with the rows of big bucket ss numbered in row order, scaled down by s bits. */
  ghost predicate Numbered(b: seq<byte>, p: seq<int>, quad: seq<int>, quad': seq<int>, start: int, size: int, s: nat)
    requires |p| == |b|
  {
    && |quad'| == |quad| && |b| + OVERSHOOT <= |quad| && 0 <= start && 0 <= size && start + size <= |b|
    && (forall x :: |b| <= x < |b| + OVERSHOOT ==> quad'[x] == quad'[x - |b|])
    && (forall x :: start <= x < start + size ==> 0 <= p[x] < |b| && quad'[p[x]] == Shr(x - start, s))
    && (forall i :: 0 <= i < |b| && (forall x :: start <= x < start + size ==> p[x] != i) ==> quad'[i] == quad[i])
  }

  /** Numbering a sorted big bucket keeps the quadrants sound. */
  lemma NumberedSound(b: seq<byte>, p: seq<int>, ft: seq<int>, done: seq<bool>, quad: seq<int>, quad': seq<int>, ss: byte, s: nat)
    requires RowState(b, p, ft, done) && done[ss] && QuadrantsSound(b, quad)
    requires Numbered(b, p, quad, quad', Start(b, 256 * ss), Start(b, 256 * (ss + 1)) - Start(b, 256 * ss), s)
    ensures QuadrantsSound(b, quad')
  {
    PlacedOf(b, p, ft, done);
    hide Start, Cmp, RowState, Numbered, KeyPlaced;
    NumberedShape(b, p, quad, quad', ss, s);
    forall i, j | 0 <= i < |b| && 0 <= j < |b| && b[i] == b[j] && quad'[i] < quad'[j]
      ensures Cmp(b, i, j, |b|) <= 0
    {
      if b[i] == ss {
        NumberedBig(b, p, ft, done, quad, quad', ss, s, i, j);
      } else {
        NumberedElsewhere(b, p, quad, quad', ss, s, i);
        NumberedElsewhere(b, p, quad, quad', ss, s, j);
      }
    }
  }

  lemma NumberedShape(b: seq<byte>, p: seq<int>, quad: seq<int>, quad': seq<int>, ss: byte, s: nat)
    requires |p| == |b|
    requires Numbered(b, p, quad, quad', Start(b, 256 * ss), Start(b, 256 * (ss + 1)) - Start(b, 256 * ss), s)
    ensures |quad'| == |quad| && |b| + OVERSHOOT <= |quad'|
    ensures forall x :: |b| <= x < |b| + OVERSHOOT ==> quad'[x] == quad'[x - |b|]
  {
    hide Start, Shr;
  }

  lemma NumberedAt(b: seq<byte>, p: seq<int>, quad: seq<int>, quad': seq<int>, start: int, size: int, s: nat, x: int)
    requires |p| == |b| && Numbered(b, p, quad, quad', start, size, s) && start <= x < start + size
    ensures 0 <= x < |p| && 0 <= p[x] < |b| <= |quad'| && quad'[p[x]] == Shr(x - start, s)
  {
    hide Shr;
  }

  lemma NotNumbered(b: seq<byte>, p: seq<int>, quad: seq<int>, quad': seq<int>, start: int, size: int, s: nat, i: int)
    requires |p| == |b| && Numbered(b, p, quad, quad', start, size, s) && 0 <= i < |b|
    requires forall x :: start <= x < start + size ==> 0 <= x < |p| && p[x] != i
    ensures i < |quad| == |quad'| && quad'[i] == quad[i]
  {
    hide Shr;
  }

  lemma NumberedRow(b: seq<byte>, p: seq<int>, quad: seq<int>, quad': seq<int>, ss: byte, s: nat, i: int) returns (x: int)
    requires KeyPlaced(Keys(b), p) && |p| == |b| && 0 <= i < |b| <= |quad'| && b[i] == ss
    requires Numbered(b, p, quad, quad', Start(b, 256 * ss), Start(b, 256 * (ss + 1)) - Start(b, 256 * ss), s)
    ensures Start(b, 256 * ss) <= x < Start(b, 256 * (ss + 1)) && x < |p| && p[x] == i
    ensures quad'[i] == Shr(x - Start(b, 256 * ss), s)
  {
    hide *;
    x := BigRow(b, p, ss, i);
    var st := Start(b, 256 * ss);
    var size := Start(b, 256 * (ss + 1)) - st;
    NumberedAt(b, p, quad, quad', st, size, s, x);
  }

  lemma ShrOrder(x: int, y: int, s: nat)
    requires Shr(x, s) < Shr(y, s)
    ensures x < y
  {
    hide *;
    if y <= x { ShrMono(y, x, s); }
  }

  lemma NumberedBig(b: seq<byte>, p: seq<int>, ft: seq<int>, done: seq<bool>, quad: seq<int>, quad': seq<int>, ss: byte, s: nat, i: int, j: int)
    requires RowState(b, p, ft, done) && done[ss] && |quad'| >= |b|
    requires KeyPlaced(Keys(b), p) && |p| == |b|
    requires Numbered(b, p, quad, quad', Start(b, 256 * ss), Start(b, 256 * (ss + 1)) - Start(b, 256 * ss), s)
    requires 0 <= i < |b| && 0 <= j < |b| && b[i] == b[j] == ss && quad'[i] < quad'[j]
    ensures Cmp(b, i, j, |b|) <= 0
  {
    hide *;
    var x := NumberedRow(b, p, quad, quad', ss, s, i);
    var y := NumberedRow(b, p, quad, quad', ss, s, j);
    ShrOrder(x - Start(b, 256 * ss), y - Start(b, 256 * ss), s);
    DoneRowsOrdered(b, p, ft, done, ss, x, y);
  }

  lemma NumberedElsewhere(b: seq<byte>, p: seq<int>, quad: seq<int>, quad': seq<int>, ss: byte, s: nat, i: int)
    requires KeyPlaced(Keys(b), p) && |p| == |b| && 0 <= i < |b| && b[i] != ss
    requires Numbered(b, p, quad, quad', Start(b, 256 * ss), Start(b, 256 * (ss + 1)) - Start(b, 256 * ss), s)
    ensures i < |quad| == |quad'| && quad'[i] == quad[i]
  {
    NotBigRow(b, p, ss, i);
    hide Start, Shr, KeyPlaced;
    NotNumbered(b, p, quad, quad', Start(b, 256 * ss), Start(b, 256 * (ss + 1)) - Start(b, 256 * ss), s, i);
  }

  lemma PlacedOf(b: seq<byte>, p: seq<int>, ft: seq<int>, done: seq<bool>)
    requires RowState(b, p, ft, done)
    ensures KeyPlaced(Keys(b), p) && |p| == |b| && |done| == 256
  {
  }

  lemma BigRow(b: seq<byte>, p: seq<int>, ss: byte, i: int) returns (x: int)
    requires KeyPlaced(Keys(b), p) && 0 <= i < |b| && b[i] == ss
    ensures Start(b, 256 * ss) <= x < Start(b, 256 * (ss + 1)) && x < |p| && p[x] == i
  {
    KeyParts(b, i, ss);
    x := HeadListed(b, p, ss, i, 256 * ss, 256 * (ss + 1));
  }

  lemma NotBigRow(b: seq<byte>, p: seq<int>, ss: byte, i: int)
    requires KeyPlaced(Keys(b), p) && 0 <= i < |b| && b[i] != ss
    ensures |p| == |b| && forall x :: Start(b, 256 * ss) <= x < Start(b, 256 * (ss + 1)) ==> p[x] != i
  {
    hide Start;
    forall x | Start(b, 256 * ss) <= x < Start(b, 256 * (ss + 1)) ensures p[x] != i {
      StartMono(b, 256 * ss, 256 * (ss + 1));
      KeyWithin(b, p, x, 256 * ss, 256 * (ss + 1));
      KeyParts(b, p[x], ss);
    }
  }

  lemma DoneRowsOrdered(b: seq<byte>, p: seq<int>, ft: seq<int>, done: seq<bool>, ss: byte, x: int, y: int)
    requires RowState(b, p, ft, done) && done[ss]
    requires Start(b, 256 * ss) <= x < y < Start(b, 256 * (ss + 1))
    ensures 0 <= x < |b| && y < |b| && Cmp(b, p[x], p[y], |b|) <= 0
  {
    hide Start, Cmp, BucketSorted;
    StartMono(b, 256 * ss, 256 * (ss + 1));
    KeyWithin(b, p, x, 256 * ss, 256 * (ss + 1));
    var k := Key(b, p[x]);
    assert k / 256 == ss;
    assert Marked(ft[k]);
    RowsInOrder(b, p, x, y);
  }

  /** Rows numbered so far: those from j on. */
  ghost predicate NumberedFrom(b: seq<byte>, p: seq<int>, quad: seq<int>, quad': seq<int>, start: int, size: int, s: nat, j: int)
    requires |p| == |b|
  {
    && |quad'| == |quad| && |b| > OVERSHOOT && |b| + OVERSHOOT <= |quad| && 0 <= start && 0 <= j <= size && start + size <= |b|
    && IsPerm(p, |b|)
    && (forall x :: |b| <= x < |b| + OVERSHOOT ==> quad'[x] == quad'[x - |b|])
    && (forall x :: start + j <= x < start + size ==> quad'[p[x]] == Shr(x - start, s))
    && (forall i :: 0 <= i < |b| && (forall x :: start <= x < start + size ==> p[x] != i) ==> quad'[i] == quad[i])
  }

  lemma NumberOne(b: seq<byte>, p: seq<int>, quad: seq<int>, quad': seq<int>, start: int, size: int, s: nat, j: int, q2: seq<int>)
    requires |p| == |b| && NumberedFrom(b, p, quad, quad', start, size, s, j + 1) && 0 <= j
    requires |q2| == |quad'|
    requires var a := p[start + j]; var v := Shr(j, s);
             q2 == if a < OVERSHOOT then quad'[a := v][a + |b| := v] else quad'[a := v]
    ensures NumberedFrom(b, p, quad, q2, start, size, s, j)
  {
    hide Shr;
  }

  method Shifts(bbSize: int) returns (shifts: nat)
    requires 0 <= bbSize
    ensures Shr(bbSize, shifts) <= 65534
  {
    shifts := 0;
    while Shr(bbSize, shifts) > 65534
      decreases Shr(bbSize, shifts)
    {
      ShrLess(bbSize, shifts);
      shifts := shifts + 1;
    }
  }

  method SetQuadrant(quadrant: array<int>, a: int, v: int, nblock: int)
    requires 0 <= a < nblock && OVERSHOOT < nblock && nblock + OVERSHOOT <= quadrant.Length
    modifies quadrant
    ensures quadrant[..] == if a < OVERSHOOT then old(quadrant[..])[a := v][a + nblock := v] else old(quadrant[..])[a := v]
  {
    quadrant[a] := v;
    if a < OVERSHOOT { quadrant[a + nblock] := v; }
  }

  /** Step 3: numbers the rows of the finished big bucket ss, in the overshoot area too. */
  method UpdateQuadrants(ptr: array<int>, quadrant: array<int>, ftab: array<int>, nblock: int, ss: byte,
                         ghost b: seq<byte>, ghost done: seq<bool>)
    requires ptr != quadrant && quadrant != ftab && nblock == |b| <= MAX_BLOCK && nblock <= ptr.Length
    requires ftab.Length == 65537 && nblock + OVERSHOOT <= quadrant.Length
    requires RowState(b, ptr[..nblock], ftab[..], done) && done[ss]
    requires QuadrantsSound(b, quadrant[..]) && OpenZero(b, quadrant[..], done)
    modifies quadrant
    ensures QuadrantsSound(b, quadrant[..]) && OpenZero(b, quadrant[..], done)
  {
    ghost var p, quad := ptr[..nblock], quadrant[..];
    QuadrantFacts(b, p, ftab[..], done, quad, ss);
    hide Start, RowState, QuadrantsSound, NumberedFrom, KeyPlaced, OpenZero, Shr, IsPerm;
    var bbStart := Clear(ftab[256 * ss]);
    var bbSize := Clear(ftab[256 * (ss + 1)]) - bbStart;
    var shifts := Shifts(bbSize);
    NumberNone(b, p, quad, bbStart, bbSize, shifts);
    var j := bbSize - 1;
    while j >= 0
      invariant -1 <= j < bbSize || j == -1
      invariant NumberedFrom(b, p, quad, quadrant[..], bbStart, bbSize, shifts, j + 1)
    {
      var a2update := ptr[bbStart + j];
      var qVal := Shr(j, shifts);
      ghost var q := quadrant[..];
      RowInRange(b, p, bbStart + j);
      SetQuadrant(quadrant, a2update, qVal, nblock);
      NumberOne(b, p, quad, q, bbStart, bbSize, shifts, j, quadrant[..]);
      j := j - 1;
    }
    if bbSize > 0 {
      ShrMono(bbSize - 1, bbSize, shifts);
      assert Shr(bbSize - 1, shifts) <= 65535;  // assertion 1002
    }
    NumberedAll(b, p, quad, quadrant[..], bbStart, bbSize, shifts, ss, ftab[..], done);
  }

  lemma RowInRange(b: seq<byte>, p: seq<int>, x: int)
    requires IsPerm(p, |b|) && 0 <= x < |b|
    ensures 0 <= p[x] < |b|
  {
  }

  lemma QuadrantFacts(b: seq<byte>, p: seq<int>, ft: seq<int>, done: seq<bool>, quad: seq<int>, ss: byte)
    requires RowState(b, p, ft, done) && QuadrantsSound(b, quad)
    ensures |b| > OVERSHOOT && IsPerm(p, |b|) && |b| + OVERSHOOT <= |quad| && |ft| == 65537
    ensures forall x :: |b| <= x < |b| + OVERSHOOT ==> quad[x] == quad[x - |b|]
    ensures Clear(ft[256 * ss]) == Start(b, 256 * ss) && Clear(ft[256 * (ss + 1)]) == Start(b, 256 * (ss + 1))
    ensures 0 <= Start(b, 256 * ss) <= Start(b, 256 * (ss + 1)) <= |b|
  {
    StartMono(b, 256 * ss, 256 * (ss + 1));
  }

  lemma NumberNone(b: seq<byte>, p: seq<int>, quad: seq<int>, start: int, size: int, s: nat)
    requires IsPerm(p, |b|) && |b| > OVERSHOOT && |b| + OVERSHOOT <= |quad| && 0 <= start && 0 <= size && start + size <= |b|
    requires forall x :: |b| <= x < |b| + OVERSHOOT ==> quad[x] == quad[x - |b|]
    ensures NumberedFrom(b, p, quad, quad, start, size, s, size)
  {
  }

  lemma NumberedAll(b: seq<byte>, p: seq<int>, quad: seq<int>, quad': seq<int>, start: int, size: int, s: nat,
                    ss: byte, ft: seq<int>, done: seq<bool>)
    requires RowState(b, p, ft, done) && done[ss] && QuadrantsSound(b, quad) && OpenZero(b, quad, done)
    requires start == Start(b, 256 * ss) && size == Start(b, 256 * (ss + 1)) - start
    requires NumberedFrom(b, p, quad, quad', start, size, s, 0)
    ensures QuadrantsSound(b, quad') && OpenZero(b, quad', done)
  {
    NumberedSound(b, p, ft, done, quad, quad', ss, s);
    hide Start, MarkedSorted, DoneMarked, Table, QuadrantsSound;
    forall i | 0 <= i < |b| && !done[b[i]] ensures quad'[i] == 0 {
      NotBigRow(b, p, ss, i);
    }
  }

  // ---------- initialisation ----------

  /** ftab counts the two-byte keys of positions i and up. */
  ghost predicate CountedFrom(b: seq<byte>, ft: seq<int>, i: nat)
    requires i <= |b|
  {
    && |ft| == 65537 && ft[65536] == 0
    && forall k :: 0 <= k < 65536 ==> ft[k] == Occ(Keys(b), |b|, k) - Occ(Keys(b), i, k)
  }

  lemma CountOne(b: seq<byte>, ft: seq<int>, i: nat)
    requires i < |b| && CountedFrom(b, ft, i + 1)
    ensures 0 <= Key(b, i) < 65536
    ensures CountedFrom(b, ft[Key(b, i) := ft[Key(b, i)] + 1], i)
  {
  }

  /** The two-byte key moves one place down the block by a shift and a new high byte. */
  lemma RollKey(b: seq<byte>, i: nat, s: int)
    requires i < |b| && 0 <= s < 65536 && s / 256 == b[Next(i, |b|)]
    ensures s / 256 + 256 * (b[i] as int) == Key(b, i) && (s / 256 + 256 * (b[i] as int)) / 256 == b[i]
    ensures 0 <= Key(b, i) < 65536
  {
  }

  /** Counts the small buckets, clears the quadrants and copies the overshoot. */
  method CountPairs(block: array<int>, quadrant: array<int>, ftab: array<int>, nblock: int, ghost b: seq<byte>)
    requires block != quadrant && block != ftab && quadrant != ftab
    requires OVERSHOOT < nblock == |b| && ftab.Length == 65537
    requires nblock + OVERSHOOT <= block.Length && nblock + OVERSHOOT <= quadrant.Length
    requires forall x :: 0 <= x < nblock ==> block[x] == b[x]
    modifies block, quadrant, ftab
    ensures Extended(b, block[..])
    ensures forall x :: 0 <= x < nblock + OVERSHOOT ==> quadrant[x] == 0
    ensures CountedFrom(b, ftab[..], 0)
  {
    for i := 0 to 65537
      invariant forall k :: 0 <= k < i ==> ftab[k] == 0
      invariant forall x :: 0 <= x < nblock ==> block[x] == b[x]
    {
      ftab[i] := 0;
    }
    assert CountedFrom(b, ftab[..], nblock);
    hide CountedFrom, Key;
    var j := 256 * block[0];
    var i := nblock - 1;
    while i >= 0
      invariant -1 <= i < nblock
      invariant 0 <= j < 65536 && (i >= 0 ==> j / 256 == b[Next(i, nblock)])
      invariant CountedFrom(b, ftab[..], i + 1)
      invariant forall x :: i < x < nblock ==> quadrant[x] == 0
      invariant forall x :: 0 <= x < nblock ==> block[x] == b[x]
    {
      quadrant[i] := 0;
      RollKey(b, i, j);
      j := j / 256 + 256 * block[i];
      CountOne(b, ftab[..], i);
      ghost var ft := ftab[..];
      ftab[j] := ftab[j] + 1;
      assert ftab[..] == ft[j := ft[j] + 1];
      i := i - 1;
    }
    for i := 0 to OVERSHOOT
      invariant forall x :: 0 <= x < nblock ==> block[x] == b[x]
      invariant forall x :: 0 <= x < i ==> block[nblock + x] == b[x]
      invariant forall x :: 0 <= x < nblock + i ==> quadrant[x] == 0
      invariant CountedFrom(b, ftab[..], 0)
    {
      block[nblock + i] := block[i];
      quadrant[nblock + i] := 0;
    }
  }

  method SumPairs(ftab: array<int>, ghost b: seq<byte>)
    requires ftab.Length == 65537 && CountedFrom(b, ftab[..], 0)
    modifies ftab
    ensures forall k :: 0 <= k <= 65536 ==> ftab[k] == Start(b, k + 1)
  {
    BelowEnds(Keys(b), |b|, 0, 65536);
    BelowEnds(Keys(b), |b|, 0, 65537);
    BucketSize(b, 0);
    ghost var ft := ftab[..];
    hide Start;
    for i := 1 to 65537
      invariant forall k :: 0 <= k < i ==> ftab[k] == Start(b, k + 1)
      invariant forall k :: i <= k <= 65536 ==> ftab[k] == ft[k]
    {
      if i < 65536 { BucketSize(b, i); }
      ftab[i] := ftab[i] + ftab[i - 1];
    }
  }

  /** Positions i and up stand at their rows; each bucket cursor is at its next free row. */
  ghost predicate PlacedFrom(b: seq<byte>, ft: seq<int>, f: seq<int>, i: nat)
    requires i <= |b|
  {
    && |ft| == 65537 && |f| == |b| && ft[65536] == Start(b, 65536)
    && (forall k :: 0 <= k < 65536 ==> ft[k] == Start(b, k) + Occ(Keys(b), i, k))
    && (forall x :: i <= x < |b| ==> f[Rank(Keys(b), x)] == x)
  }

  lemma PlaceOne(b: seq<byte>, ft: seq<int>, f: seq<int>, i: nat)
    requires i < |b| && PlacedFrom(b, ft, f, i + 1)
    ensures 0 <= Key(b, i) < 65536 && ft[Key(b, i)] - 1 == Rank(Keys(b), i) && 0 <= Rank(Keys(b), i) < |b|
    ensures PlacedFrom(b, ft[Key(b, i) := ft[Key(b, i)] - 1], f[Rank(Keys(b), i) := i], i)
  {
    var r := Rank(Keys(b), i);
    forall x | i < x < |b| ensures Rank(Keys(b), x) != r {
      RankInjective(Keys(b), x, i);
    }
  }

  lemma PlacedAll(b: seq<byte>, ft: seq<int>, f: seq<int>)
    requires PlacedFrom(b, ft, f, 0)
    ensures KeyPlaced(Keys(b), f)
    ensures forall k :: 0 <= k <= 65536 ==> ft[k] == Start(b, k)
  {
    hide Start;
    StablePlaced(Keys(b), f);
  }

  method PlacePairs(ptr: array<int>, block: array<int>, ftab: array<int>, nblock: int, ghost b: seq<byte>)
    requires ptr != block && ptr != ftab && ftab != block
    requires 0 < nblock == |b| && nblock <= ptr.Length && nblock <= block.Length && ftab.Length == 65537
    requires forall x :: 0 <= x < nblock ==> block[x] == b[x]
    requires forall k :: 0 <= k <= 65536 ==> ftab[k] == Start(b, k + 1)
    modifies ptr, ftab
    ensures KeyPlaced(Keys(b), ptr[..nblock])
    ensures forall k :: 0 <= k <= 65536 ==> ftab[k] == Start(b, k)
  {
    PlacedNone(b, ftab[..], ptr[..nblock]);
    hide PlacedFrom, Start, KeyPlaced, Rank, Key;
    var s := 256 * block[0];
    var i := nblock - 1;
    while i >= 0
      invariant -1 <= i < nblock
      invariant 0 <= s < 65536 && (i >= 0 ==> s / 256 == b[Next(i, nblock)])
      invariant PlacedFrom(b, ftab[..], ptr[..nblock], i + 1)
    {
      RollKey(b, i, s);
      s := s / 256 + 256 * block[i];
      PlaceOne(b, ftab[..], ptr[..nblock], i);
      PlaceRow(ptr, ftab, s, i, nblock);
      i := i - 1;
    }
    PlacedAll(b, ftab[..], ptr[..nblock]);
  }

  method PlaceRow(ptr: array<int>, ftab: array<int>, s: int, i: int, ghost nblock: int)
    requires ptr != ftab && 0 <= s < ftab.Length && 0 <= ftab[s] - 1 < nblock <= ptr.Length
    modifies ptr, ftab
    ensures ftab[..] == old(ftab[..])[s := old(ftab[s]) - 1] && ptr[..nblock] == old(ptr[..nblock])[old(ftab[s]) - 1 := i]
  {
    var j := ftab[s] - 1;
    ftab[s] := j;
    ptr[j] := i;
  }

  lemma PlacedNone(b: seq<byte>, ft: seq<int>, f: seq<int>)
    requires |ft| == 65537 && |f| == |b| && forall k :: 0 <= k <= 65536 ==> ft[k] == Start(b, k + 1)
    ensures PlacedFrom(b, ft, f, |b|)
  {
    forall k | 0 <= k < 65536 ensures ft[k] == Start(b, k) + Occ(Keys(b), |b|, k) {
      BucketSize(b, k);
    }
    BelowEnds(Keys(b), |b|, 0, 65536);
    BelowEnds(Keys(b), |b|, 0, 65537);
  }

  // ---------- the order in which big buckets are finished ----------

  function BigFreq(ftab: seq<int>, c: int): int
    requires |ftab| == 65537 && 0 <= c < 256
  {
    ftab[256 * (c + 1)] - ftab[256 * c]
  }

  /** a lists all bytes once, but for a stale entry at j where v belongs. */
  ghost predicate OrderHoled(a: seq<int>, j: int, v: int) {
    |a| == 256 && 0 <= j < 256 && IsPerm(a[j := v], 256)
  }

  lemma OrderShift(a: seq<int>, j: int, k: int, v: int)
    requires OrderHoled(a, j, v) && 0 <= k < 256 && k != j
    ensures 0 <= a[k] < 256 && OrderHoled(a[j := a[k]], k, v)
  {
    var s, t := a[j := v], a[j := a[k]][k := v];
    assert s[k] == a[k];
    forall x | 0 <= x < 256 ensures t[x] == if x == k then s[j] else if x == j then s[k] else s[x] {
    }
  }

  /** Shell sort of the bytes by size of their big buckets; that every byte occurs once is what the sort relies on. */
  method RunningOrder(ftab: array<int>) returns (runningOrder: array<int>)
    requires ftab.Length == 65537
    ensures fresh(runningOrder) && runningOrder.Length == 256 && IsPerm(runningOrder[..], 256)
  {
    runningOrder := new int[256];
    for i := 0 to 256
      invariant forall k :: 0 <= k < i ==> runningOrder[k] == k
    {
      runningOrder[i] := i;
    }
    assert IsPerm(runningOrder[..], 256);
    hide IsPerm;
    var h := 364;  // the first of 1, 4, 13, 40, ... above 256
    while h != 1
      invariant h in {364, 121, 40, 13, 4, 1}
      invariant IsPerm(runningOrder[..], 256)
      decreases h
    {
      h := h / 3;
      for i := h to 256
        invariant IsPerm(runningOrder[..], 256)
      {
        InsertByte(runningOrder, ftab, h, i);
      }
    }
  }

  method InsertByte(runningOrder: array<int>, ftab: array<int>, h: int, i: int)
    requires runningOrder.Length == 256 && ftab.Length == 65537 && 1 <= h <= i < 256 && runningOrder != ftab
    requires IsPerm(runningOrder[..], 256)
    modifies runningOrder
    ensures IsPerm(runningOrder[..], 256)
  {
    var vv := runningOrder[i];
    var freq := BigFreq(ftab[..], vv);
    assert runningOrder[..] == runningOrder[..][i := vv];
    assert OrderHoled(runningOrder[..], i, vv);
    hide IsPerm, OrderHoled;
    var j := i;
    while j > h - 1
      invariant 0 <= j <= i && OrderHoled(runningOrder[..], j, vv)
    {
      ghost var a := runningOrder[..];
      OrderShift(a, j, j - h, vv);
      if BigFreq(ftab[..], runningOrder[j - h]) <= freq { break; }
      runningOrder[j] := runningOrder[j - h];
      assert runningOrder[..] == a[j := a[j - h]];
      j := j - h;
    }
    OrderFilled(runningOrder[..], j, vv);
    ghost var a := runningOrder[..];
    runningOrder[j] := vv;
    assert runningOrder[..] == a[j := vv];
  }

  lemma OrderFilled(a: seq<int>, j: int, v: int)
    requires OrderHoled(a, j, v)
    ensures IsPerm(a[j := v], 256)
  {
  }

  // ---------- the whole sort ----------

  /** Between big buckets: rows, marks and quadrants are consistent, and the first i of the order are finished. */
  ghost predicate Between(b: seq<byte>, p: seq<int>, ft: seq<int>, done: seq<bool>, order: seq<int>, i: int) {
    && RowState(b, p, ft, done)
    && IsPerm(order, 256) && 0 <= i <= 256
    && forall k :: 0 <= k < 256 ==> (done[order[k]] <==> k < i)
  }

  lemma NotYetDone(b: seq<byte>, p: seq<int>, ft: seq<int>, done: seq<bool>, order: seq<int>, i: int)
    requires Between(b, p, ft, done, order, i) && i < 256
    ensures |order| == |done| == 256 && 0 <= order[i] < 256 && !done[order[i]] && RowState(b, p, ft, done)
  {
    assert !done[order[i]];
  }

  lemma OneMoreDone(b: seq<byte>, p: seq<int>, ft: seq<int>, done: seq<bool>, order: seq<int>, i: int,
                    p': seq<int>, ft': seq<int>)
    requires Between(b, p, ft, done, order, i) && i < 256 && 0 <= order[i] < 256
    requires RowState(b, p', ft', done[order[i] := true])
    ensures Between(b, p', ft', done[order[i] := true], order, i + 1)
  {
    assert |done| == 256;
    hide RowState;
    var done' := done[order[i] := true];
    forall k | 0 <= k < 256 ensures done'[order[k]] <==> k < i + 1 {
      if k != i { assert order[k] != order[i]; }
      assert done[order[k]] <==> k < i;
    }
  }

  /** When every big bucket is finished, the rows are all rotations in order. */
  lemma AllDone(b: seq<byte>, p: seq<int>, ft: seq<int>, done: seq<bool>, order: seq<int>)
    requires Between(b, p, ft, done, order, 256)
    ensures SortedRotations(b, p)
  {
    forall c | 0 <= c < 256 ensures done[c] {
      var k := PermHits(order, 256, c);
      assert done[order[k]] <==> k < 256;
    }
    hide BucketSorted, Start, Cmp, Table;
    forall x, y | 0 <= x < y < |b| ensures Cmp(b, p[x], p[y], |b|) <= 0 {
      RowBucket(b, p, x);
      var k := Key(b, p[x]);
      assert done[k / 256] && Marked(ft[k]);
      RowsInOrder(b, p, x, y);
    }
  }

  lemma StartRows(b: seq<byte>, p: seq<int>, ft: seq<int>, done: seq<bool>, order: seq<int>)
    requires |b| > OVERSHOOT && |b| < SETMASK && KeyPlaced(Keys(b), p) && IsPerm(order, 256)
    requires |ft| == 65537 && forall k :: 0 <= k <= 65536 ==> ft[k] == Start(b, k)
    requires |done| == 256 && forall c :: 0 <= c < 256 ==> !done[c]
    ensures Between(b, p, ft, done, order, 0)
  {
    hide BucketSorted, Start;
  }

  /** Step 2 with its bookkeeping: after the scan every bucket of ss, and every bucket ending in ss, is marked. */
  method ScanAndMark(ptr: array<int>, block: array<int>, ftab: array<int>, nblock: int, ss: byte, bigDone: array<bool>, ghost b: seq<byte>)
    requires ptr != block && ptr != ftab && ftab != block && OVERSHOOT < nblock == |b| <= MAX_BLOCK
    requires nblock <= ptr.Length && nblock <= block.Length && ftab.Length == 65537 && bigDone.Length == 256
    requires forall x :: 0 <= x < nblock ==> block[x] == b[x]
    requires RowState(b, ptr[..nblock], ftab[..], bigDone[..]) && !bigDone[ss]
    requires forall k :: 256 * ss <= k < 256 * ss + 256 && k != 256 * ss + ss ==> Marked(ftab[k])
    modifies ptr, ftab
    ensures RowState(b, ptr[..nblock], ftab[..], bigDone[..][ss := true])
  {
    hide *;
    ghost var p0, done := ptr[..nblock], bigDone[..];
    ScanBucket(ptr, block, ftab, nblock, ss, bigDone, b);
    ghost var p, ft := ptr[..nblock], ftab[..];
    AfterScan(b, ss, p0, p, ft, done);
    MarkColumn(ftab, ss, b, p, done);
    AllMarked(ft, ftab[..], ss);
    FinishBig(b, p, ftab[..], done, ss);
  }

  lemma AllMarked(ft: seq<int>, ft': seq<int>, ss: byte)
    requires |ft| == |ft'| == 65537
    requires forall k :: 256 * ss <= k < 256 * ss + 256 && k != 256 * ss + ss ==> Marked(ft[k])
    requires forall k :: 0 <= k < 65536 && (Marked(ft[k]) || k % 256 == ss) ==> Marked(ft'[k])
    ensures forall k :: 256 * ss <= k < 256 * ss + 256 ==> Marked(ft'[k])
  {
  }

  /** Finishes one big bucket: steps 1 to 3. */
  method FinishBucket(ptr: array<int>, block: array<int>, quadrant: array<int>, ftab: array<int>, nblock: int,
                      ss: byte, bigDone: array<bool>, last: bool, budget0: int, ghost b: seq<byte>)
    returns (budget: int)
    requires ptr != block && ptr != quadrant && ptr != ftab && ftab != block && ftab != quadrant && quadrant != block
    requires OVERSHOOT < nblock == |b| <= MAX_BLOCK && nblock <= ptr.Length && ftab.Length == 65537 && bigDone.Length == 256
    requires Comparable(b, block[..], quadrant[..]) && OpenZero(b, quadrant[..], bigDone[..])
    requires RowState(b, ptr[..nblock], ftab[..], bigDone[..]) && !bigDone[ss] && budget0 >= 0
    modifies ptr, ftab, quadrant, bigDone
    ensures budget >= 0 ==> bigDone[..] == old(bigDone[..])[ss := true]
    ensures budget >= 0 ==> RowState(b, ptr[..nblock], ftab[..], bigDone[..])
    ensures budget >= 0 && !last ==> Comparable(b, block[..], quadrant[..]) && OpenZero(b, quadrant[..], bigDone[..])
    ensures nblock + OVERSHOOT <= quadrant.Length
  {
    ghost var done := bigDone[..];
    ComparableParts(b, block[..], quadrant[..]);
    hide RowState, Comparable, OpenZero, Marked, Extended, QuadrantsSound;
    budget := SortSmallBuckets(ptr, block, quadrant, ftab, nblock, ss, budget0, done, b);
    if budget < 0 { return; }
    assert !bigDone[ss];  // assertion 1006
    ScanAndMark(ptr, block, ftab, nblock, ss, bigDone, b);
    OpenZeroLess(b, quadrant[..], done, ss);
    bigDone[ss] := true;
    assert bigDone[..] == done[ss := true];
    if !last {
      UpdateQuadrants(ptr, quadrant, ftab, nblock, ss, b, bigDone[..]);
      ComparableBack(b, block[..], quadrant[..]);
    }
  }

  lemma ComparableParts(b: seq<byte>, block: seq<int>, quadrant: seq<int>)
    requires Comparable(b, block, quadrant)
    ensures |b| + OVERSHOOT <= |quadrant| && |b| + OVERSHOOT <= |block| && QuadrantsSound(b, quadrant) && Extended(b, block)
    ensures forall x :: 0 <= x < |b| ==> block[x] == b[x]
  {
  }

  lemma ComparableBack(b: seq<byte>, block: seq<int>, quadrant: seq<int>)
    requires Extended(b, block) && |b| + OVERSHOOT <= |quadrant| && QuadrantsSound(b, quadrant)
    ensures Comparable(b, block, quadrant)
  {
  }

  lemma OpenZeroLess(b: seq<byte>, quad: seq<int>, done: seq<bool>, ss: byte)
    requires |b| <= |quad| && |done| == 256 && OpenZero(b, quad, done)
    ensures OpenZero(b, quad, done[ss := true])
  {
  }

  lemma ZeroQuadrants(b: seq<byte>, block: seq<int>, quad: seq<int>, done: seq<bool>)
    requires Extended(b, block) && |b| + OVERSHOOT <= |quad| && |done| == 256
    requires forall x :: 0 <= x < |b| + OVERSHOOT ==> quad[x] == 0
    ensures Comparable(b, block, quad) && OpenZero(b, quad, done)
  {
    hide Cmp;
  }

  /**
   * The main sort.  Unless the budget runs out, ptr ends up listing the rotations of the block in
   * non-decreasing order; the block itself is kept in any case.
   */
  method Sort(ptr: array<int>, block: array<int>, quadrant: array<int>, ftab: array<int>, nblock: int, budget0: int, ghost b: seq<byte>)
    returns (budget: int)
    requires ptr != block && ptr != quadrant && ptr != ftab && ftab != block && ftab != quadrant && quadrant != block
    requires OVERSHOOT < nblock == |b| <= MAX_BLOCK && nblock <= ptr.Length && ftab.Length == 65537
    requires nblock + OVERSHOOT <= block.Length && nblock + OVERSHOOT <= quadrant.Length
    requires forall x :: 0 <= x < nblock ==> block[x] == b[x]
    requires budget0 >= 0
    modifies ptr, block, quadrant, ftab
    ensures budget >= 0 ==> SortedRotations(b, ptr[..nblock])
    ensures forall x :: 0 <= x < nblock ==> block[x] == b[x]
  {
    hide Comparable, OpenZero, RowState, Between, Extended, KeyPlaced, Start, IsPerm, CountedFrom, SortedBy;
    CountPairs(block, quadrant, ftab, nblock, b);
    SumPairs(ftab, b);
    ExtendedBytes(b, block[..]);
    PlacePairs(ptr, block, ftab, nblock, b);
    var bigDone := new bool[256](_ => false);
    var runningOrder := RunningOrder(ftab);
    StartRows(b, ptr[..nblock], ftab[..], bigDone[..], runningOrder[..]);
    ZeroQuadrants(b, block[..], quadrant[..], bigDone[..]);
    budget := budget0;
    for i := 0 to 256
      invariant budget >= 0 && forall x :: 0 <= x < nblock ==> block[x] == b[x]
      invariant Between(b, ptr[..nblock], ftab[..], bigDone[..], runningOrder[..], i)
      invariant i < 256 ==> Comparable(b, block[..], quadrant[..]) && OpenZero(b, quadrant[..], bigDone[..])
    {
      ghost var p, ft, done, order := ptr[..nblock], ftab[..], bigDone[..], runningOrder[..];
      NotYetDone(b, p, ft, done, order, i);
      var ss := runningOrder[i];
      budget := FinishBucket(ptr, block, quadrant, ftab, nblock, ss, bigDone, i == 255, budget, b);
      if budget < 0 { return; }
      OneMoreDone(b, p, ft, done, order, i, ptr[..nblock], ftab[..]);
    }
    AllDone(b, ptr[..nblock], ftab[..], bigDone[..], runningOrder[..]);
  }

  lemma ExtendedBytes(b: seq<byte>, block: seq<int>)
    requires Extended(b, block)
    ensures |b| <= |block| && forall x :: 0 <= x < |b| ==> block[x] == b[x]
  {
  }
}
