/** The fallback block sort: exponential radix sort, doubling the sorted prefix length at each pass. */
module FallbackSort {
  import opened Permutations
  import opened Counting
  import opened Rotations
  import opened Rearrange
  import opened ThreeWay
  import opened QSortStack
  import opened FallbackQSort

  /** Rows lo..hi of f are ordered by their first h cyclic bytes, and heads mark where those change. */
  ghost predicate HeadsMark(b: seq<byte>, f: seq<int>, heads: seq<bool>, h: nat, lo: int, hi: int)
    requires IsPerm(f, |b|)
  {
    && -1 <= lo && hi < |b| <= |heads|
    && (forall x :: lo < x <= hi && 0 < x ==> Cmp(b, f[x - 1], f[x], h) <= 0)
    && (forall x :: lo < x <= hi && 0 < x ==> (heads[x] <==> Cmp(b, f[x - 1], f[x], h) != 0))
  }

  /** The state between passes. */
  ghost predicate Bucketed(b: seq<byte>, f: seq<int>, heads: seq<bool>, h: nat) {
    && |b| > 0
    && IsPerm(f, |b|)
    && Sentinels(heads, |b|)
    && heads[0]
    && HeadsMark(b, f, heads, h, 0, |b| - 1)
  }

  /** Alternating bits behind the block stop every bucket scan. */
  ghost predicate Sentinels(heads: seq<bool>, n: int) {
    && 0 <= n && n + 96 <= |heads|
    && heads[n] && !heads[n + 1]
  }

  // ---------- what the passes establish ----------

  lemma {:induction false} AdjacentOrder(b: seq<byte>, f: seq<int>, heads: seq<bool>, h: nat,
                                         lo: int, hi: int, x: int, y: int)
    requires IsPerm(f, |b|) && HeadsMark(b, f, heads, h, lo, hi)
    requires lo <= x <= y <= hi && 0 <= x
    ensures Cmp(b, f[x], f[y], h) <= 0
    ensures Cmp(b, f[x], f[y], h) == 0 <==> forall z :: x < z <= y ==> !heads[z]
    decreases y - x
  {
    if x == y {
      CmpSwap(b, f[x], f[x], h);
    } else {
      AdjacentOrder(b, f, heads, h, lo, hi, x, y - 1);
      CmpTrans(b, f[x], f[y - 1], f[y], h);
      if Cmp(b, f[x], f[y - 1], h) == 0 && Cmp(b, f[y - 1], f[y], h) == 0 {
        EqualTrans(b, f[x], f[y - 1], f[y], h);
      }
    }
  }

  lemma EqualTrans(b: seq<byte>, i: int, j: int, k: int, h: nat)
    requires 0 <= i < |b| && 0 <= j < |b| && 0 <= k < |b|
    requires Cmp(b, i, j, h) == 0 && Cmp(b, j, k, h) == 0
    ensures Cmp(b, i, k, h) == 0
  {
    CmpSwap(b, i, j, h);
    CmpSwap(b, j, k, h);
    CmpTrans(b, i, j, k, h);
    CmpTrans(b, k, j, i, h);
    CmpSwap(b, i, k, h);
  }

  /** When the prefix covers the block, or nothing was left to refine, the rows are all rotations in order. */
  lemma BucketedSorted(b: seq<byte>, f: seq<int>, heads: seq<bool>, h: nat)
    requires Bucketed(b, f, heads, h)
    requires h >= |b| || forall x :: 0 < x < |b| ==> heads[x]
    ensures SortedRotations(b, f)
  {
    forall x, y | 0 <= x < y < |b| ensures Cmp(b, f[x], f[y], |b|) <= 0 {
      AdjacentOrder(b, f, heads, h, 0, |b| - 1, x, y);
      CmpRound(b, f[x], f[y], h);
      if h < |b| {
        assert heads[y];
      }
    }
  }

  // ---------- one pass ----------

  /** The last head at or before row x. */
  ghost function Head(heads: seq<bool>, x: int): (r: int)
    requires 0 <= x < |heads| && heads[0]
    ensures 0 <= r <= x && heads[r] && forall z :: r < z <= x ==> !heads[z]
    decreases x
  {
    if heads[x] then x else Head(heads, x - 1)
  }

  /** The class of v orders positions by the h bytes that follow the first h. */
  ghost predicate Classes(b: seq<byte>, ec: seq<int>, h: nat) {
    && |b| <= |ec|
    && forall v, w :: 0 <= v < |b| && 0 <= w < |b| ==>
         && (ec[v] == ec[w] <==> Cmp(b, Step(v, h, |b|), Step(w, h, |b|), h) == 0)
         && (ec[v] < ec[w] <==> Cmp(b, Step(v, h, |b|), Step(w, h, |b|), h) < 0)
  }

  /** h places back from v, going round. */
  function Back(v: int, h: int, n: int): (r: int)
    requires 0 <= v < n && 0 <= h <= n
    ensures 0 <= r < n || (h == 0 && r == v)
  {
    if v - h < 0 then v - h + n else v - h
  }

  lemma BackStep(v: int, h: int, n: int)
    requires 0 <= v < n && 0 <= h <= n
    ensures Step(Back(v, h, n), h, n) == v && Back(Step(v, h, n), h, n) == v
  {
    StepWrap(v, h, n);
    StepWrap(Back(v, h, n), h, n);
  }

  lemma HeadOrder(b: seq<byte>, f: seq<int>, heads: seq<bool>, h: nat, x: int, y: int)
    requires Bucketed(b, f, heads, h) && 0 <= x <= y < |b|
    ensures Head(heads, x) == Head(heads, y) <==> Cmp(b, f[x], f[y], h) == 0
    ensures Head(heads, x) <= Head(heads, y) && Cmp(b, f[x], f[y], h) <= 0
  {
    AdjacentOrder(b, f, heads, h, 0, |b| - 1, x, y);
    if Head(heads, y) <= x {
      assert forall z :: x < z <= y ==> !heads[z];
    }
  }

  lemma HeadsAreClasses(b: seq<byte>, f: seq<int>, heads: seq<bool>, h: nat, ec: seq<int>)
    requires Bucketed(b, f, heads, h) && h <= |b| <= |ec|
    requires forall x :: 0 <= x < |b| ==> ec[Back(f[x], h, |b|)] == Head(heads, x)
    ensures Classes(b, ec, h)
  {
    var n := |b|;
    forall v, w | 0 <= v < n && 0 <= w < n
      ensures ec[v] == ec[w] <==> Cmp(b, Step(v, h, n), Step(w, h, n), h) == 0
      ensures ec[v] < ec[w] <==> Cmp(b, Step(v, h, n), Step(w, h, n), h) < 0
    {
      BackStep(v, h, n);
      BackStep(w, h, n);
      var x := PermHits(f, n, Step(v, h, n));
      var y := PermHits(f, n, Step(w, h, n));
      assert ec[v] == Head(heads, x) && ec[w] == Head(heads, y);
      CmpSwap(b, f[x], f[y], h);
      if x <= y { HeadOrder(b, f, heads, h, x, y); } else { HeadOrder(b, f, heads, h, y, x); }
    }
  }

  /** Mid-pass: rows up to r are marked for the doubled prefix, the later ones still for h. */
  ghost predicate Refining(b: seq<byte>, f: seq<int>, heads: seq<bool>, h: nat, r: int) {
    && |b| > 0 && -1 <= r < |b|
    && IsPerm(f, |b|)
    && Sentinels(heads, |b|)
    && heads[0]
    && HeadsMark(b, f, heads, 2 * h, -1, r)
    && HeadsMark(b, f, heads, h, r, |b| - 1)
  }

  /** A head that is the only row of its bucket is a head for the doubled prefix too. */
  lemma SkipHeads(b: seq<byte>, f: seq<int>, heads: seq<bool>, h: nat, r: int, l: int)
    requires Refining(b, f, heads, h, r) && r < l < |b|
    requires forall x :: r < x <= l ==> heads[x]
    ensures Refining(b, f, heads, h, l)
    ensures l > 0 ==> Cmp(b, f[l - 1], f[l], h) < 0
  {
    hide Cmp;
    forall x | -1 < x <= l && 0 < x
      ensures Cmp(b, f[x - 1], f[x], 2 * h) <= 0 && (heads[x] <==> Cmp(b, f[x - 1], f[x], 2 * h) != 0)
    {
      CmpSplit(b, f[x - 1], f[x], h, h);
    }
  }

  /** Inside one bucket the doubled prefix is decided by the classes. */
  lemma SameBucket(b: seq<byte>, f: seq<int>, heads: seq<bool>, h: nat, ec: seq<int>, l: int, r: int, x: int, y: int)
    requires IsPerm(f, |b|) && HeadsMark(b, f, heads, h, l, |b| - 1) && Classes(b, ec, h)
    requires 0 <= l <= r < |b| && l <= x <= r && l <= y <= r
    requires forall z :: l < z <= r ==> !heads[z]
    ensures Cmp(b, f[x], f[y], h) == 0
    ensures ec[f[x]] <= ec[f[y]] ==> Cmp(b, f[x], f[y], 2 * h) <= 0
    ensures ec[f[x]] == ec[f[y]] <==> Cmp(b, f[x], f[y], 2 * h) == 0
  {
    hide Cmp, Classes, Injective;
    CmpSwap(b, f[x], f[y], h);
    if x <= y {
      AdjacentOrder(b, f, heads, h, l, |b| - 1, x, y);
    } else {
      AdjacentOrder(b, f, heads, h, l, |b| - 1, y, x);
    }
    ClassOrder(b, ec, h, f[x], f[y]);
  }

  /** Among positions with equal prefixes, the classes order the doubled prefixes. */
  lemma ClassOrder(b: seq<byte>, ec: seq<int>, h: nat, v: int, w: int)
    requires Classes(b, ec, h) && 0 <= v < |b| && 0 <= w < |b| && Cmp(b, v, w, h) == 0
    ensures ec[v] <= ec[w] ==> Cmp(b, v, w, 2 * h) <= 0
    ensures ec[v] == ec[w] <==> Cmp(b, v, w, 2 * h) == 0
  {
    CmpSplit(b, v, w, h, h);
  }

  /** Bits of the sorted bucket l..r set where the class changes, all other bits kept. */
  ghost predicate Rehead(ec: seq<int>, t: seq<int>, heads: seq<bool>, heads': seq<bool>, l: int, r: int)
    requires 0 <= l <= r < |t| && forall x :: l <= x <= r ==> 0 <= t[x] < |ec|
  {
    && |heads'| == |heads| && r < |heads|
    && (forall x :: l < x <= r ==> (heads'[x] <==> ec[t[x - 1]] != ec[t[x]]))
    && (forall x :: 0 <= x < |heads| && !(l < x <= r) ==> heads'[x] == heads[x])
  }

  /** Sorting a bucket by class and marking the class changes refines it to the doubled prefix. */
  lemma RefineBucket(b: seq<byte>, f: seq<int>, t: seq<int>, heads: seq<bool>, heads': seq<bool>,
                     ec: seq<int>, h: nat, l: int, r: int)
    requires Refining(b, f, heads, h, l) && Classes(b, ec, h) && 0 <= l < r < |b|
    requires l > 0 ==> Cmp(b, f[l - 1], f[l], h) < 0
    requires forall z :: l < z <= r ==> !heads[z]
    requires heads[r + 1]
    requires IsPerm(t, |b|) && Rearranged(f, t, l, r + 1)
    requires forall x, y :: l <= x < y <= r ==> ec[t[x]] <= ec[t[y]]
    requires Rehead(ec, t, heads, heads', l, r)
    ensures Refining(b, t, heads', h, r)
  {
    hide Cmp, Classes, Rearranged, HeadsMark, Injective;
    RowsUpTo(b, f, t, heads, heads', ec, h, l, r);
    RowsAfter(b, f, t, heads, heads', ec, h, l, r);
  }

  lemma RowsUpTo(b: seq<byte>, f: seq<int>, t: seq<int>, heads: seq<bool>, heads': seq<bool>,
                 ec: seq<int>, h: nat, l: int, r: int)
    requires Refining(b, f, heads, h, l) && Classes(b, ec, h) && 0 <= l < r < |b|
    requires l > 0 ==> Cmp(b, f[l - 1], f[l], h) < 0
    requires forall z :: l < z <= r ==> !heads[z]
    requires IsPerm(t, |b|) && Rearranged(f, t, l, r + 1)
    requires forall x, y :: l <= x < y <= r ==> ec[t[x]] <= ec[t[y]]
    requires Rehead(ec, t, heads, heads', l, r)
    ensures HeadsMark(b, t, heads', 2 * h, -1, r)
  {
    RearrangedFrame(f, t, l, r + 1);
    hide Cmp, Classes, Rearranged, Injective;
    if l > 0 { FirstRow(b, f, t, heads, ec, h, l, r); }
    forall x | 0 < x <= r
      ensures Cmp(b, t[x - 1], t[x], 2 * h) <= 0 && (heads'[x] <==> Cmp(b, t[x - 1], t[x], 2 * h) != 0)
    {
      if l < x {
        RefinedRow(b, f, t, heads, ec, h, l, r, x);
      } else if x < l {
        assert t[x - 1] == f[x - 1] && t[x] == f[x];
      }
    }
  }

  lemma RowsAfter(b: seq<byte>, f: seq<int>, t: seq<int>, heads: seq<bool>, heads': seq<bool>,
                  ec: seq<int>, h: nat, l: int, r: int)
    requires Refining(b, f, heads, h, l) && Classes(b, ec, h) && 0 <= l < r < |b|
    requires forall z :: l < z <= r ==> !heads[z]
    requires heads[r + 1]
    requires IsPerm(t, |b|) && Rearranged(f, t, l, r + 1)
    requires Rehead(ec, t, heads, heads', l, r)
    ensures HeadsMark(b, t, heads', h, r, |b| - 1)
  {
    RearrangedFrame(f, t, l, r + 1);
    hide Cmp, Classes, Rearranged, Injective;
    if r + 1 < |b| {
      RowBehind(b, f, t, heads, ec, h, l, r);
    }
  }

  lemma RefinedRow(b: seq<byte>, f: seq<int>, t: seq<int>, heads: seq<bool>, ec: seq<int>, h: nat, l: int, r: int, x: int)
    requires IsPerm(f, |b|) && HeadsMark(b, f, heads, h, l, |b| - 1) && Classes(b, ec, h)
    requires 0 <= l < x <= r < |b| && (forall z :: l < z <= r ==> !heads[z])
    requires IsPerm(t, |b|) && Rearranged(f, t, l, r + 1) && ec[t[x - 1]] <= ec[t[x]]
    ensures Cmp(b, t[x - 1], t[x], 2 * h) <= 0
    ensures ec[t[x - 1]] != ec[t[x]] <==> Cmp(b, t[x - 1], t[x], 2 * h) != 0
  {
    hide Cmp, Classes, HeadsMark, Rearranged;
    var y := RearrangedFrom(f, t, l, r + 1, x - 1);
    var z := RearrangedFrom(f, t, l, r + 1, x);
    SameBucket(b, f, heads, h, ec, l, r, y, z);
  }

  lemma FirstRow(b: seq<byte>, f: seq<int>, t: seq<int>, heads: seq<bool>, ec: seq<int>, h: nat, l: int, r: int)
    requires IsPerm(f, |b|) && HeadsMark(b, f, heads, h, l, |b| - 1) && Classes(b, ec, h)
    requires 0 < l <= r < |b| && (forall z :: l < z <= r ==> !heads[z])
    requires IsPerm(t, |b|) && Rearranged(f, t, l, r + 1) && Cmp(b, f[l - 1], f[l], h) < 0
    ensures Cmp(b, t[l - 1], t[l], 2 * h) < 0 && Cmp(b, f[l - 1], f[l], 2 * h) < 0
  {
    hide Cmp, Classes, HeadsMark;
    var z := RearrangedFrom(f, t, l, r + 1, l);
    SameBucket(b, f, heads, h, ec, l, r, l, z);
    CmpTrans(b, f[l - 1], f[l], f[z], h);
    CmpSplit(b, f[l - 1], f[z], h, h);
    CmpSplit(b, f[l - 1], f[l], h, h);
  }

  lemma RowBehind(b: seq<byte>, f: seq<int>, t: seq<int>, heads: seq<bool>, ec: seq<int>, h: nat, l: int, r: int)
    requires IsPerm(f, |b|) && HeadsMark(b, f, heads, h, l, |b| - 1) && Classes(b, ec, h)
    requires 0 <= l <= r && r + 1 < |b| && (forall z :: l < z <= r ==> !heads[z]) && heads[r + 1]
    requires IsPerm(t, |b|) && Rearranged(f, t, l, r + 1)
    ensures Cmp(b, t[r], t[r + 1], h) < 0
  {
    hide Cmp, Classes;
    var z := RearrangedFrom(f, t, l, r + 1, r);
    SameBucket(b, f, heads, h, ec, l, r, z, r);
    CmpTrans(b, f[z], f[r], f[r + 1], h);
  }

  // ---------- the routine ----------

  /** First row at or after k whose bit differs from v, found bit by bit up to a word border, then by words. */
  method SkipBits(bh: array<bool>, k0: int, v: bool, ghost stop: int) returns (k: int)
    requires 0 <= k0 <= stop && stop + 64 <= bh.Length && bh[stop] != v
    ensures k0 <= k <= stop && bh[k] != v
    ensures forall x :: k0 <= x < k ==> bh[x] == v
  {
    k := k0;
    while bh[k] == v && k % 32 != 0
      invariant k0 <= k <= stop
      invariant forall x :: k0 <= x < k ==> bh[x] == v
      decreases stop - k
    {
      k := k + 1;
    }
    if bh[k] == v {
      while forall x :: k <= x < k + 32 ==> bh[x] == v
        invariant k0 <= k <= stop
        invariant forall x :: k0 <= x < k ==> bh[x] == v
        decreases stop - k
      {
        assert stop >= k + 32;
        k := k + 32;
      }
      while bh[k] == v
        invariant k0 <= k <= stop
        invariant forall x :: k0 <= x < k ==> bh[x] == v
        decreases stop - k
      {
        k := k + 1;
      }
    }
  }

  /** The classes of the positions H before the first i rows are known. */
  ghost predicate ClassesUpTo(b: seq<byte>, f: seq<int>, heads: seq<bool>, ec: seq<int>, h: nat, i: int)
    requires Bucketed(b, f, heads, h) && h <= |b|
  {
    && |b| <= |ec| && 0 <= i <= |b|
    && forall x :: 0 <= x < i ==> ec[Back(f[x], h, |b|)] == Head(heads, x)
  }

  lemma NextClass(b: seq<byte>, f: seq<int>, heads: seq<bool>, ec: seq<int>, h: nat, i: int)
    requires Bucketed(b, f, heads, h) && 1 <= h <= |b| && ClassesUpTo(b, f, heads, ec, h, i) && i < |b|
    ensures ClassesUpTo(b, f, heads, ec[Back(f[i], h, |b|) := Head(heads, i)], h, i + 1)
  {
    forall x | 0 <= x < i ensures Back(f[x], h, |b|) != Back(f[i], h, |b|) {
      BackStep(f[x], h, |b|);
      BackStep(f[i], h, |b|);
    }
  }

  lemma AllClasses(b: seq<byte>, f: seq<int>, heads: seq<bool>, ec: seq<int>, h: nat)
    requires Bucketed(b, f, heads, h) && 1 <= h <= |b| && ClassesUpTo(b, f, heads, ec, h, |b|)
    ensures Classes(b, ec, h)
    ensures forall v :: 0 <= v < |b| ==> 0 <= ec[v]
  {
    HeadsAreClasses(b, f, heads, h, ec);
    forall v | 0 <= v < |b| ensures 0 <= ec[v] {
      BackStep(v, h, |b|);
      var x := PermHits(f, |b|, Step(v, h, |b|));
      assert Back(f[x], h, |b|) == v;
    }
  }

  lemma BucketedRow(b: seq<byte>, f: seq<int>, heads: seq<bool>, h: nat, i: int)
    requires Bucketed(b, f, heads, h) && 0 <= i < |b|
    ensures 0 <= f[i] < |b| && i < |heads| && heads[0]
  {
  }

  /** Gives every position the head of the bucket that the position H places on sits in. */
  method ComputeClasses(fmap: array<int>, eclass: array<int>, bh: array<bool>, nblock: int, H: int, ghost b: seq<byte>)
    requires fmap != eclass && nblock == |b| && nblock <= fmap.Length && nblock <= eclass.Length
    requires 1 <= H <= nblock && Bucketed(b, fmap[..nblock], bh[..], H)
    modifies eclass
    ensures Classes(b, eclass[..], H)
    ensures forall v :: 0 <= v < nblock ==> 0 <= eclass[v]
  {
    ghost var f, heads := fmap[..nblock], bh[..];
    assert ClassesUpTo(b, f, heads, eclass[..], H, 0);
    hide Bucketed, ClassesUpTo, Classes;
    var j := 0;
    for i := 0 to nblock
      invariant i > 0 ==> heads[0] && j == Head(heads, i - 1)
      invariant i == 0 ==> j == 0
      invariant ClassesUpTo(b, f, heads, eclass[..], H, i)
    {
      BucketedRow(b, f, heads, H, i);
      if bh[i] { j := i; }
      assert j == Head(heads, i);
      var k := fmap[i] - H;
      if k < 0 { k := k + nblock; }
      NextClass(b, f, heads, eclass[..], H, i);
      ghost var ec := eclass[..];
      eclass[k] := j;
      assert eclass[..] == ec[k := j];
    }
    AllClasses(b, f, heads, eclass[..], H);
  }

  /** Marks the rows of the sorted bucket l..r where the class changes. */
  method MarkClassChanges(fmap: array<int>, eclass: array<int>, bh: array<bool>, l: int, r: int)
    requires 0 <= l <= r < fmap.Length && r < bh.Length && fmap != eclass
    requires forall x :: l <= x <= r ==> 0 <= fmap[x] < eclass.Length && 0 <= eclass[fmap[x]]
    requires bh[l] && forall x :: l < x <= r ==> !bh[x]
    modifies bh
    ensures Rehead(eclass[..], fmap[..], old(bh[..]), bh[..], l, r)
  {
    ghost var heads := bh[..];
    var cc := -1;
    for i := l to r + 1
      invariant i == l ==> cc == -1
      invariant i > l ==> cc == eclass[fmap[i - 1]]
      invariant forall x :: l < x < i ==> (bh[x] <==> eclass[fmap[x - 1]] != eclass[fmap[x]])
      invariant forall x :: 0 <= x < bh.Length && !(l < x < i) ==> bh[x] == heads[x]
    {
      var cc1 := eclass[fmap[i]];
      if cc != cc1 {
        bh[i] := true;
        cc := cc1;
      }
    }
  }

  lemma BucketScanned(b: seq<byte>, f: seq<int>, heads: seq<bool>, h: nat, r: int)
    requires Refining(b, f, heads, h, r)
    ensures heads[|b|] && !heads[|b| + 1] && heads[0] && |b| + 96 <= |heads|
  {
  }

  lemma AllMarked(b: seq<byte>, f: seq<int>, heads: seq<bool>, h: nat)
    requires Refining(b, f, heads, h, |b| - 1)
    ensures Bucketed(b, f, heads, 2 * h)
  {
  }

  lemma PassStart(b: seq<byte>, f: seq<int>, heads: seq<bool>, h: nat)
    requires Bucketed(b, f, heads, h)
    ensures Refining(b, f, heads, h, -1)
  {
  }

  lemma RefiningRows(b: seq<byte>, f: seq<int>, heads: seq<bool>, h: nat, r: int)
    requires Refining(b, f, heads, h, r)
    ensures IsPerm(f, |b|) && |f| == |b| && |b| + 96 <= |heads|
  {
  }

  /** Sorts the bucket l..r by class and marks its class changes. */
  method SortBucket(fmap: array<int>, eclass: array<int>, bh: array<bool>, nblock: int, ghost H: nat,
                    l: int, r: int, ghost b: seq<byte>)
    requires fmap != eclass && nblock == |b| < 0x8000_0000 && nblock <= fmap.Length && nblock <= eclass.Length
    requires Refining(b, fmap[..nblock], bh[..], H, l) && Classes(b, eclass[..], H)
    requires forall v :: 0 <= v < nblock ==> 0 <= eclass[v]
    requires 0 <= l < r < nblock
    requires l > 0 ==> Cmp(b, fmap[..nblock][l - 1], fmap[..nblock][l], H) < 0
    requires bh[..][l] && (forall z :: l < z <= r ==> !bh[..][z]) && bh[..][r + 1]
    modifies fmap, bh
    ensures Refining(b, fmap[..nblock], bh[..], H, r)
    ensures forall x :: 0 <= x < bh.Length && !(l < x <= r) ==> bh[x] == old(bh[x])
  {
    hide *;
    ghost var s, f, heads, ec := fmap[..], fmap[..nblock], bh[..], eclass[..];
    RefiningRows(b, f, heads, H, l);
    RowsIndexable(s, f, ec, l, r);
    QSort3(fmap, eclass, l, r);
    ghost var t := fmap[..nblock];
    RearrangedPrefix(s, fmap[..], l, r + 1, nblock);
    RearrangedPerm(f, t, l, r + 1, nblock);
    OrderedRows(fmap[..], t, ec, l, r);
    MarkClassChanges(fmap, eclass, bh, l, r);
    RefineBucket(b, f, t, heads, bh[..], ec, H, l, r);
  }

  lemma RowsIndexable(s: seq<int>, f: seq<int>, ec: seq<int>, l: int, r: int)
    requires 0 <= l <= r < |f| <= |s| && f == s[..|f|] && IsPerm(f, |f|) && |f| <= |ec|
    requires forall v :: 0 <= v < |f| ==> 0 <= ec[v]
    ensures Indexable(s, |ec|, 0, l, r + 1) && Size(l, r) <= |f|
  {
    assert forall x :: l <= x <= r ==> s[x] == f[x];
  }

  lemma OrderedRows(s: seq<int>, t: seq<int>, ec: seq<int>, l: int, r: int)
    requires 0 <= l <= r < |t| <= |s| && t == s[..|t|]
    requires Indexable(s, |ec|, 0, l, r + 1) && Ordered(s, ec, l, r)
    requires IsPerm(t, |t|) && |t| <= |ec| && forall v :: 0 <= v < |t| ==> 0 <= ec[v]
    ensures Indexable(t, |ec|, 0, l, r + 1)
    ensures forall x :: l <= x <= r ==> 0 <= s[x] < |ec| && 0 <= ec[s[x]]
    ensures forall x :: l <= x <= r ==> 0 <= t[x] < |ec|
    ensures forall x, y :: l <= x < y <= r ==> ec[t[x]] <= ec[t[y]]
    ensures forall h, h' :: Rehead(ec, s, h, h', l, r) ==>
      && Rehead(ec, t, h, h', l, r)
      && |h'| == |h| && forall x :: 0 <= x < |h| && !(l < x <= r) ==> h'[x] == h[x]
  {
  }

  /** One pass: every bucket with several rows is sorted by class and split where the class changes. */
  method RefinePass(fmap: array<int>, eclass: array<int>, bh: array<bool>, nblock: int, ghost H: nat, ghost b: seq<byte>)
    returns (nNotDone: int)
    requires fmap != eclass && 0 < nblock == |b| < 0x8000_0000 && nblock <= fmap.Length && nblock <= eclass.Length
    requires Bucketed(b, fmap[..nblock], bh[..], H) && Classes(b, eclass[..], H)
    requires forall v :: 0 <= v < nblock ==> 0 <= eclass[v]
    modifies fmap, bh
    ensures Bucketed(b, fmap[..nblock], bh[..], 2 * H)
    ensures nNotDone == 0 ==> forall x :: 0 < x < nblock ==> bh[x]
  {
    hide Cmp, Classes, Refining, Bucketed;
    PassStart(b, fmap[..nblock], bh[..], H);
    BucketScanned(b, fmap[..nblock], bh[..], H, -1);
    nNotDone := 0;
    var r := -1;
    while true
      invariant -1 <= r < nblock && nNotDone >= 0
      invariant Refining(b, fmap[..nblock], bh[..], H, r)
      invariant nblock + 96 <= bh.Length && bh[nblock] && !bh[nblock + 1]
      invariant bh[r + 1]
      invariant nNotDone == 0 ==> forall x :: 0 < x <= r ==> bh[x]
      decreases nblock - r
    {
      var k := SkipBits(bh, r + 1, true, nblock + 1);
      var l := k - 1;
      if l >= nblock {
        if r < nblock - 1 { SkipHeads(b, fmap[..nblock], bh[..], H, r, nblock - 1); }
        break;
      }
      SkipHeads(b, fmap[..nblock], bh[..], H, r, l);
      k := SkipBits(bh, k, false, nblock);
      var r0 := r;
      r := k - 1;
      assert r < nblock;  // the sentinel bit: the second end test never fires
      if r > l {
        nNotDone := nNotDone + (r - l + 1);
        SortBucket(fmap, eclass, bh, nblock, H, l, r, b);
      }
    }
    AllMarked(b, fmap[..nblock], bh[..], H);
  }

  /** The doubling passes; ends with all rotations in order. */
  method RefineAll(fmap: array<int>, eclass: array<int>, bh: array<bool>, nblock: int, ghost b: seq<byte>)
    requires fmap != eclass && 0 < nblock == |b| < 0x8000_0000 && nblock <= fmap.Length && nblock <= eclass.Length
    requires nblock + 96 <= bh.Length && Bucketed(b, fmap[..nblock], bh[..], 1)
    modifies fmap, eclass, bh
    ensures SortedRotations(b, fmap[..nblock])
  {
    hide Bucketed, Classes, SortedBy;
    var H := 1;
    while true
      invariant 1 <= H <= nblock && Bucketed(b, fmap[..nblock], bh[..], H)
      decreases nblock - H
    {
      ComputeClasses(fmap, eclass, bh, nblock, H, b);
      var nNotDone := RefinePass(fmap, eclass, bh, nblock, H, b);
      H := 2 * H;
      if H > nblock || nNotDone == 0 {
        assert H >= |b| || forall x :: 0 < x < |b| ==> bh[..][x];
        BucketedSorted(b, fmap[..nblock], bh[..], H);
        break;
      }
    }
  }

  // ---------- radix sort by the first byte ----------

  /** Counting by byte value, twice over: totals in ftabCopy, ends of buckets in ftab. */
  method CountBytes(block: array<int>, nblock: int, ftab: array<int>, ftabCopy: array<int>, ghost b: seq<byte>)
    requires 0 <= nblock <= block.Length && ftab.Length == 257 && ftabCopy.Length == 256 && ftab != ftabCopy
    requires block[..nblock] == b && block != ftab && block != ftabCopy
    modifies ftab, ftabCopy
    ensures forall c :: 0 <= c < 256 ==> ftabCopy[c] == Occ(b, nblock, c)
    ensures forall c :: 0 <= c <= 256 ==> ftab[c] == Below(b, nblock, c + 1)
  {
    for i := 0 to 257
      invariant forall c :: 0 <= c < i ==> ftab[c] == 0
    {
      ftab[i] := 0;
    }
    for i := 0 to nblock
      invariant forall c :: 0 <= c <= 256 ==> ftab[c] == Occ(b, i, c)
    {
      assert block[i] == b[i];
      ftab[block[i]] := ftab[block[i]] + 1;
    }
    for i := 0 to 256
      invariant forall c :: 0 <= c < i ==> ftabCopy[c] == Occ(b, nblock, c)
      invariant forall c :: 0 <= c <= 256 ==> ftab[c] == Occ(b, nblock, c)
    {
      ftabCopy[i] := ftab[i];
    }
    BelowEnds(b, nblock, 0, 256);
    BelowNext(b, nblock, 0);
    for i := 1 to 257
      invariant forall c :: 0 <= c < i ==> ftab[c] == Below(b, nblock, c + 1)
      invariant forall c :: i <= c <= 256 ==> ftab[c] == Occ(b, nblock, c)
      invariant forall c :: 0 <= c < 256 ==> ftabCopy[c] == Occ(b, nblock, c)
    {
      BelowNext(b, nblock, i);
      ftab[i] := ftab[i] + ftab[i - 1];
    }
  }

  /** Buckets filled from their ends by the first i positions. */
  ghost predicate Filled(b: seq<int>, i: nat, ftab: seq<int>, f: seq<int>)
    requires i <= |b|
  {
    && |ftab| == 257 && |f| == |b|
    && (forall c :: 0 <= c < 256 ==> ftab[c] == Below(b, |b|, c + 1) - Occ(b, i, c))
    && (forall x :: 0 <= x < i ==> f[RankDown(b, x)] == x)
  }

  lemma FilledStep(b: seq<int>, i: nat, ftab: seq<int>, f: seq<int>)
    requires i < |b| && 0 <= b[i] < 256 && Filled(b, i, ftab, f)
    ensures ftab[b[i]] - 1 == RankDown(b, i)
    ensures Filled(b, i + 1, ftab[b[i] := ftab[b[i]] - 1], f[RankDown(b, i) := i])
  {
    forall x | 0 <= x < i ensures RankDown(b, x) != RankDown(b, i) {
      RankDownInjective(b, x, i);
    }
  }

  lemma FilledAll(b: seq<int>, ftab: seq<int>, f: seq<int>)
    requires Filled(b, |b|, ftab, f)
    ensures KeyPlaced(b, f)
    ensures forall c :: 0 <= c < 256 ==> ftab[c] == Below(b, |b|, c)
  {
    hide Below, RankDown;
    FilledDown(b, f);
    forall c | 0 <= c < 256 ensures ftab[c] == Below(b, |b|, c) {
      BelowNext(b, |b|, c);
    }
  }

  method FillBuckets(fmap: array<int>, block: array<int>, nblock: int, ftab: array<int>, ghost b: seq<byte>)
    requires 0 <= nblock <= block.Length && nblock <= fmap.Length && ftab.Length == 257 && ftab != fmap
    requires block[..nblock] == b && block != ftab && block != fmap
    requires forall c :: 0 <= c <= 256 ==> ftab[c] == Below(b, nblock, c + 1)
    modifies fmap, ftab
    ensures KeyPlaced(b, fmap[..nblock])
    ensures forall c :: 0 <= c < 256 ==> ftab[c] == Below(b, nblock, c)
  {
    assert Filled(b, 0, ftab[..], fmap[..nblock]);
    hide Filled, Below, KeyPlaced;
    for i := 0 to nblock
      invariant Filled(b, i, ftab[..], fmap[..nblock])
    {
      FilledStep(b, i, ftab[..], fmap[..nblock]);
      ghost var ft, f := ftab[..], fmap[..nblock];
      assert block[i] == b[i];
      var j := block[i];
      var k := ftab[j] - 1;
      ftab[j] := k;
      fmap[k] := i;
      assert ftab[..] == ft[j := k] && fmap[..nblock] == f[k := i];
    }
    FilledAll(b, ftab[..], fmap[..nblock]);
  }

  /** The initial heads: bucket starts, then the alternating sentinel bits. */
  method InitialHeads(bh: array<bool>, nblock: int, ftab: array<int>, ghost b: seq<byte>, ghost f: seq<int>)
    requires 0 < nblock == |b| && nblock + 96 <= bh.Length && ftab.Length == 257
    requires KeyPlaced(b, f) && forall c :: 0 <= c < 256 ==> ftab[c] == Below(b, nblock, c)
    modifies bh
    ensures Bucketed(b, f, bh[..], 1)
  {
    hide Below, KeyPlaced;
    for i := 0 to Words(nblock)
      invariant forall x :: 0 <= x < i ==> !bh[x]
    {
      bh[i] := false;
    }
    for i := 0 to 256
      invariant forall c :: 0 <= c < i ==> bh[ftab[c]]
      invariant forall x :: 0 <= x < nblock && bh[x] ==> exists c :: 0 <= c < i && ftab[c] == x
    {
      bh[ftab[i]] := true;
    }
    for i := 0 to 32
      invariant i > 0 ==> bh[nblock] && !bh[nblock + 1]
      invariant forall c :: 0 <= c < 256 && ftab[c] < nblock ==> bh[ftab[c]]
      invariant forall x :: 0 <= x < nblock && bh[x] ==> exists c :: 0 <= c < 256 && ftab[c] == x
    {
      bh[nblock + 2 * i] := true;
      bh[nblock + 2 * i + 1] := false;
    }
    FirstByteHeads(b, f, bh[..], ftab[..]);
  }

  /** Bits in the words cleared before the heads are set. */
  function Words(nblock: int): (r: int)
    requires 0 <= nblock
    ensures nblock < r <= nblock + 64
  {
    32 * (2 + nblock / 32)
  }

  lemma FirstByteHeads(b: seq<byte>, f: seq<int>, heads: seq<bool>, ftab: seq<int>)
    requires KeyPlaced(b, f) && 0 < |b| && Sentinels(heads, |b|) && |ftab| == 257
    requires forall c :: 0 <= c < 256 ==> ftab[c] == Below(b, |b|, c)
    requires forall c :: 0 <= c < 256 && 0 <= ftab[c] < |b| ==> heads[ftab[c]]
    requires forall x :: 0 <= x < |b| && heads[x] ==> exists c :: 0 <= c < 256 && ftab[c] == x
    ensures Bucketed(b, f, heads, 1)
  {
    hide Cmp, Below, KeyPlaced, IsPerm;
    BelowEnds(b, |b|, 0, 256);
    assert heads[ftab[0]];
    PlacedRows(b, f);
    forall x | 0 < x < |b|
      ensures Cmp(b, f[x - 1], f[x], 1) <= 0
      ensures heads[x] <==> Cmp(b, f[x - 1], f[x], 1) != 0
    {
      FirstByteHead(b, f, heads, ftab, x);
    }
  }

  lemma PlacedRows(b: seq<byte>, f: seq<int>)
    requires KeyPlaced(b, f)
    ensures IsPerm(f, |b|) && |f| == |b| && forall x :: 0 <= x < |b| ==> 0 <= f[x] < |b|
  {
  }

  lemma FirstByteHead(b: seq<byte>, f: seq<int>, heads: seq<bool>, ftab: seq<int>, x: int)
    requires KeyPlaced(b, f) && 0 < x < |b| <= |heads| && |ftab| == 257
    requires forall c :: 0 <= c < 256 ==> ftab[c] == Below(b, |b|, c)
    requires 0 <= ftab[b[f[x]]] < |b| ==> heads[ftab[b[f[x]]]]
    requires heads[x] ==> exists c :: 0 <= c < 256 && ftab[c] == x
    ensures Cmp(b, f[x - 1], f[x], 1) <= 0
    ensures heads[x] <==> Cmp(b, f[x - 1], f[x], 1) != 0
  {
    var c, d := b[f[x - 1]], b[f[x]];
    BucketStart(b, f, x, c, d);
    hide KeyPlaced, Below;
    if c == d && heads[x] {
      var e :| 0 <= e < 256 && ftab[e] == x;
      NoBucketStart(b, f, x, e);
    }
  }

  // ---------- reconstruction of the block ----------

  /** A sorted listing of rotations has every row in the bucket of its first byte. */
  lemma SortedPlaced(b: seq<byte>, f0: seq<int>, f: seq<int>)
    requires KeyPlaced(b, f0) && SortedBy(b, f0, 1) && SortedRotations(b, f)
    ensures KeyPlaced(b, f)
  {
    forall x, y | 0 <= x < y < |b| ensures Cmp(b, f[x], f[y], 1) <= 0 {
      CmpRound(b, f[x], f[y], 1);
      if |b| == 1 { assert false; }
    }
    forall x | 0 <= x < |b| ensures b[f0[x]] == b[f[x]] {
      SortedListingsAgree(b, f0, f, 1, x);
    }
  }

  /** Row i belongs to the bucket of j when it lies between the bucket's ends. */
  lemma BucketOfRow(b: seq<byte>, f: seq<int>, i: int, j: int)
    requires KeyPlaced(b, f) && 0 <= i < |b| && Below(b, |b|, j) <= i < Below(b, |b|, j + 1)
    ensures b[f[i]] == j
  {
    Placement(b, f, i);
    hide Below;
    var c: int := b[f[i]];
    if c < j {
      BelowMono(b, |b|, c + 1, j);
    } else if j < c {
      BelowMono(b, |b|, j + 1, c);
    }
  }

  /**
   * Writes the block back from the sorted rows and the byte counts alone; what the array held before
   * (it is overlaid by the classes) does not matter.
   */
  method Reconstruct(block: array<int>, fmap: array<int>, ftabCopy: array<int>, nblock: int, ghost b: seq<byte>)
    requires nblock == |b| <= block.Length && nblock <= fmap.Length && ftabCopy.Length == 256
    requires ftabCopy != fmap && block != fmap && block != ftabCopy
    requires KeyPlaced(b, fmap[..nblock])
    requires forall c :: 0 <= c < 256 ==> ftabCopy[c] == Occ(b, nblock, c)
    modifies block, ftabCopy
    ensures block[..nblock] == b
  {
    ghost var f := fmap[..nblock];
    var j := 0;
    BelowEnds(b, nblock, 0, 256);
    BelowNext(b, nblock, 0);
    hide Below, Occ;
    for i := 0 to nblock
      invariant 0 <= j < 256 && Below(b, nblock, j) <= i <= Below(b, nblock, j + 1)
      invariant ftabCopy[j] == Below(b, nblock, j + 1) - i
      invariant forall c :: j < c < 256 ==> ftabCopy[c] == Occ(b, nblock, c)
      invariant forall x :: 0 <= x < i ==> block[f[x]] == b[f[x]]
    {
      while ftabCopy[j] == 0
        invariant 0 <= j < 256 && Below(b, nblock, j) <= i <= Below(b, nblock, j + 1)
        invariant ftabCopy[j] == Below(b, nblock, j + 1) - i
        invariant forall c :: j < c < 256 ==> ftabCopy[c] == Occ(b, nblock, c)
        invariant forall x :: 0 <= x < i ==> block[f[x]] == b[f[x]]
        decreases 256 - j
      {
        BelowNext(b, nblock, j + 1);
        j := j + 1;
      }
      BucketOfRow(b, f, i, j);
      ftabCopy[j] := ftabCopy[j] - 1;
      block[fmap[i]] := j;
    }
    assert j < 256;  // assertion 1005
    forall v | 0 <= v < nblock ensures block[v] == b[v] {
      var x := PermHits(f, nblock, v);
    }
  }

  /**
   * The fallback sort.  On return fmap lists the rotations of the block in non-decreasing order and the
   * block, overwritten by classes on the way, is restored.
   */
  method Sort(fmap: array<int>, eclass: array<int>, block: array<int>, bh: array<bool>, nblock: int, ghost b: seq<byte>)
    requires fmap != eclass && block != fmap && block != eclass && 0 < nblock < 0x8000_0000
    requires nblock <= fmap.Length && nblock <= eclass.Length && nblock <= block.Length && nblock + 96 <= bh.Length
    requires block[..nblock] == b
    modifies fmap, eclass, block, bh
    ensures SortedRotations(b, fmap[..nblock])
    ensures block[..nblock] == b
  {
    hide Below, Occ, Cmp, SortedBy, Bucketed, KeyPlaced;
    var ftab, ftabCopy := new int[257], new int[256];
    CountBytes(block, nblock, ftab, ftabCopy, b);
    FillBuckets(fmap, block, nblock, ftab, b);
    ghost var f0 := fmap[..nblock];
    InitialHeads(bh, nblock, ftab, b, f0);
    RadixSorted(b, f0, bh[..]);
    RefineAll(fmap, eclass, bh, nblock, b);
    SortedPlaced(b, f0, fmap[..nblock]);
    Reconstruct(block, fmap, ftabCopy, nblock, b);
  }

  lemma RadixSorted(b: seq<byte>, f: seq<int>, heads: seq<bool>)
    requires Bucketed(b, f, heads, 1)
    ensures SortedBy(b, f, 1)
  {
    forall x, y | 0 <= x < y < |b| ensures Cmp(b, f[x], f[y], 1) <= 0 {
      AdjacentOrder(b, f, heads, 1, 0, |b| - 1, x, y);
    }
  }
}
