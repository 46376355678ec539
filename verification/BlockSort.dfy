/** Choosing between the two block sorts, and what the choice can and cannot change in the stream. */
module BlockSort {
  import opened Permutations
  import opened Rotations
  import opened Counting
  import opened InverseBwt
  import opened MainCompare
  import opened MainQSort
  import MainSort
  import FallbackSort

  const MAIN_SORT_MINIMUM := 10000

  function Budget(nblock: int, workFactor: int): (budget: int)
    requires 0 <= nblock <= MAX_BLOCK
    ensures 0 <= budget < 0x8000_0000
  {
    var wfact := if workFactor < 1 then 1 else if workFactor > 100 then 100 else workFactor;
    nblock * ((wfact - 1) / 3)
  }

  /**
   * Sorts the rotations of the block into ptr and finds the row of rotation 0.  Short blocks, and blocks on
   * which the main sort uses up its budget, go to the fallback sort; the block is kept either way.
   */
  method SortBlock(ptr: array<int>, block: array<int>, quadrant: array<int>, eclass: array<int>, bh: array<bool>,
                   ftab: array<int>, nblock: int, workFactor: int, ghost b: seq<byte>)
    returns (origPtr: int)
    requires ptr != block && ptr != quadrant && ptr != ftab && ftab != block && ftab != quadrant && quadrant != block
    requires ptr != eclass && block != eclass
    requires 0 < nblock == |b| <= MAX_BLOCK && nblock <= ptr.Length && nblock <= eclass.Length
    requires nblock + OVERSHOOT <= block.Length && nblock + OVERSHOOT <= quadrant.Length
    requires ftab.Length == 65537 && nblock + 96 <= bh.Length
    requires block[..nblock] == b
    modifies ptr, block, quadrant, eclass, bh, ftab
    ensures SortedRotations(b, ptr[..nblock])
    ensures 0 <= origPtr < nblock && ptr[origPtr] == 0
    ensures block[..nblock] == b
  {
    hide SortedRotations, IsPerm;
    if nblock < MAIN_SORT_MINIMUM {
      FallbackSort.Sort(ptr, eclass, block, bh, nblock, b);
    } else {
      assert forall x :: 0 <= x < nblock ==> block[x] == block[..nblock][x];
      var budget := MainSort.Sort(ptr, block, quadrant, ftab, nblock, Budget(nblock, workFactor), b);
      assert block[..nblock] == b;
      if budget < 0 {
        FallbackSort.Sort(ptr, eclass, block, bh, nblock, b);
      }
    }
    origPtr := -1;
    ghost var zero := RowOfZero(b, ptr[..nblock]);
    for i := 0 to nblock
      invariant origPtr == -1
      invariant i <= zero
    {
      if ptr[i] == 0 { origPtr := i; break; }
    }
    assert origPtr != -1;  // assertion 1003
  }

  lemma RowOfZero(b: seq<byte>, p: seq<int>) returns (r: int)
    requires SortedRotations(b, p) && |b| > 0
    ensures |p| == |b| && 0 <= r < |p| && p[r] == 0
  {
    r := PermHits(p, |b|, 0);
  }

  /** Whichever sort ran, and however it ordered equal rotations, the decoder's walk returns the block. */
  lemma AnySortDecodes(b: seq<byte>, p: seq<int>, q: seq<int>, orig: int, t: seq<int>)
    requires SortedRotations(b, p) && SortedRotations(b, q)
    requires 0 <= orig < |b| && p[orig] == 0 && StableOrder(LastColumn(b, q), t)
    ensures LastColumn(b, p) == LastColumn(b, q)
    ensures IsPerm(t, |b|) && Walk(LastColumn(b, q), t, orig, |b|) == b
  {
    LastColumnUnique(b, p, q);
    CmpSwap(b, p[orig], 0, |b|);
    WalkInverts(b, p, t, orig);
  }

  /** No other rotation equals the block itself: the block is not a smaller one repeated. */
  ghost predicate Primitive(b: seq<byte>) {
    forall i :: 0 < i < |b| ==> Cmp(b, 0, i, |b|) != 0
  }

  /** Every correct sort puts rotation 0 in the same row as listing p does. */
  ghost predicate OrigPtrFixed(b: seq<byte>, p: seq<int>)
    requires SortedRotations(b, p)
  {
    forall q, r :: SortedRotations(b, q) && 0 <= r < |b| && q[r] == 0 ==> p[r] == 0
  }

  /**
   * What sortedness alone determines.  The comment in the source says the compressed stream does not depend on which
   * sort ran.  The last column never does; sortedness fixes the start row too exactly for the primitive blocks, and
   * for any other block another sorted listing has another start row.
   */
  lemma OrigPtrFixedIff(b: seq<byte>, p: seq<int>)
    requires SortedRotations(b, p)
    ensures OrigPtrFixed(b, p) <==> Primitive(b)
  {
    if Primitive(b) {
      forall q, r | SortedRotations(b, q) && 0 <= r < |b| && q[r] == 0 ensures p[r] == 0 {
        SortedListingsAgree(b, q, p, |b|, r);
      }
    }
    if !Primitive(b) {
      var i :| 0 < i < |b| && Cmp(b, 0, i, |b|) == 0;
      var x := PermHits(p, |b|, 0);
      var y := PermHits(p, |b|, i);
      SwapEqual(b, p, x, y);
      var q := p[x := p[y]][y := p[x]];
      assert q[y] == 0 && p[y] != 0;
    }
  }

  /** Two equal rotations can trade rows. */
  lemma SwapEqual(b: seq<byte>, p: seq<int>, x: int, y: int)
    requires SortedRotations(b, p) && 0 <= x < |b| && 0 <= y < |b| && Cmp(b, p[x], p[y], |b|) == 0
    ensures SortedRotations(b, p[x := p[y]][y := p[x]])
  {
    hide Cmp, Injective;
    var n := |b|;
    var q := p[x := p[y]][y := p[x]];
    SwapPerm(p, n, x, y);
    CmpSwap(b, p[x], p[y], n);
    forall u, v | 0 <= u < v < n ensures Cmp(b, q[u], q[v], n) <= 0 {
      SwapSteps(b, p, x, y, u, v);
    }
  }

  lemma SwapPerm(p: seq<int>, n: int, x: int, y: int)
    requires IsPerm(p, n) && 0 <= x < n && 0 <= y < n
    ensures IsPerm(p[x := p[y]][y := p[x]], n)
  {
  }

  lemma SwapSteps(b: seq<byte>, p: seq<int>, x: int, y: int, u: int, v: int)
    requires SortedRotations(b, p) && 0 <= x < |b| && 0 <= y < |b| && Cmp(b, p[x], p[y], |b|) == 0 == Cmp(b, p[y], p[x], |b|)
    requires 0 <= u < v < |b|
    ensures var q := p[x := p[y]][y := p[x]]; 0 <= q[u] < |b| && 0 <= q[v] < |b| && Cmp(b, q[u], q[v], |b|) <= 0
  {
    hide Cmp, Injective;
    var n := |b|;
    var q := p[x := p[y]][y := p[x]];
    CmpSwap(b, p[u], p[u], n);
    CmpSwap(b, p[v], p[v], n);
    CmpTrans(b, q[u], p[u], p[v], n);
    CmpTrans(b, q[u], p[v], q[v], n);
  }

  /** The smallest case: of the block "aa" there are two sorted listings, with different start rows. */
  lemma OrigPtrNotFixed()
    ensures SortedRotations([97, 97], [0, 1]) && !OrigPtrFixed([97, 97], [0, 1])
  {
    var b: seq<byte>, p := [97, 97], [0, 1];
    assert Cmp(b, 0, 1, 2) == Cmp(b, 1, 0, 1) == Cmp(b, 0, 1, 0) == 0;
    assert SortedRotations(b, p);
    OrigPtrFixedIff(b, p);
  }
}
