/** The mathematics of a cyclic block: rotations named by their first index, and their order. */
module Rotations {
  import opened Permutations

  type byte = x: int | 0 <= x < 256

  function Next(i: int, n: int): (r: int)
    requires 0 <= i < n
    ensures 0 <= r < n
  {
    if i + 1 == n then 0 else i + 1
  }

  function Prev(i: int, n: int): (r: int)
    requires 0 <= i < n
    ensures 0 <= r < n && Next(r, n) == i
  {
    if i == 0 then n - 1 else i - 1
  }

  /** The index k places after i, going round. */
  ghost function Step(i: int, k: nat, n: int): (r: int)
    requires 0 <= i < n
    ensures 0 <= r < n
    decreases k
  {
    if k == 0 then i else Step(Next(i, n), k - 1, n)
  }

  lemma {:induction false} StepSplit(i: int, a: nat, c: nat, n: int)
    requires 0 <= i < n
    ensures Step(i, a + c, n) == Step(Step(i, a, n), c, n)
    decreases a
  {
    if a > 0 {
      StepSplit(Next(i, n), a - 1, c, n);
    }
  }

  lemma {:induction false} StepWrap(i: int, k: nat, n: int)
    requires 0 <= i < n && k <= n
    ensures Step(i, k, n) == if i + k < n then i + k else i + k - n
    decreases k
  {
    if k > 0 {
      StepWrap(Next(i, n), k - 1, n);
    }
  }

  /** Compares the first h cyclic bytes from i with those from j: -1, 0 or 1. */
  ghost function Cmp(b: seq<byte>, i: int, j: int, h: nat): (r: int)
    requires 0 <= i < |b| && 0 <= j < |b|
    ensures -1 <= r <= 1
    decreases h
  {
    if h == 0 then 0
    else if b[i] < b[j] then -1
    else if b[i] > b[j] then 1
    else Cmp(b, Next(i, |b|), Next(j, |b|), h - 1)
  }

  /** Row order p lists all rotations of b in non-decreasing order (equal rotations in any order). */
  ghost predicate SortedBy(b: seq<byte>, p: seq<int>, h: nat) {
    && IsPerm(p, |b|)
    && forall x, y :: 0 <= x < y < |b| ==> Cmp(b, p[x], p[y], h) <= 0
  }

  ghost predicate SortedRotations(b: seq<byte>, p: seq<int>) {
    SortedBy(b, p, |b|)
  }

  lemma {:induction false} CmpSwap(b: seq<byte>, i: int, j: int, h: nat)
    requires 0 <= i < |b| && 0 <= j < |b|
    ensures Cmp(b, i, j, h) == -Cmp(b, j, i, h)
    ensures i == j ==> Cmp(b, i, j, h) == 0
    decreases h
  {
    if h > 0 {
      CmpSwap(b, Next(i, |b|), Next(j, |b|), h - 1);
    }
  }

  lemma {:induction false} CmpTrans(b: seq<byte>, i: int, j: int, k: int, h: nat)
    requires 0 <= i < |b| && 0 <= j < |b| && 0 <= k < |b|
    requires Cmp(b, i, j, h) <= 0 && Cmp(b, j, k, h) <= 0
    ensures Cmp(b, i, k, h) <= 0
    ensures Cmp(b, i, k, h) == 0 ==> Cmp(b, i, j, h) == 0 && Cmp(b, j, k, h) == 0
    decreases h
  {
    if h > 0 && b[i] == b[j] == b[k] {
      CmpTrans(b, Next(i, |b|), Next(j, |b|), Next(k, |b|), h - 1);
    } else if h > 0 && b[i] == b[k] {
      CmpSwap(b, i, j, h);
    }
  }

  lemma {:induction false} CmpSplit(b: seq<byte>, i: int, j: int, a: nat, c: nat)
    requires 0 <= i < |b| && 0 <= j < |b|
    ensures Cmp(b, i, j, a + c)
         == if Cmp(b, i, j, a) != 0 then Cmp(b, i, j, a)
            else Cmp(b, Step(i, a, |b|), Step(j, a, |b|), c)
    decreases a
  {
    if a > 0 && b[i] == b[j] {
      CmpSplit(b, Next(i, |b|), Next(j, |b|), a - 1, c);
    }
  }

  /** Comparing further than once round the block changes nothing. */
  lemma {:induction false} CmpRound(b: seq<byte>, i: int, j: int, h: nat)
    requires 0 <= i < |b| && 0 <= j < |b|
    ensures h >= |b| ==> Cmp(b, i, j, h) == Cmp(b, i, j, |b|)
    ensures h < |b| && Cmp(b, i, j, h) != 0 ==> Cmp(b, i, j, |b|) == Cmp(b, i, j, h)
    ensures Cmp(b, i, j, |b|) == 0 ==> Cmp(b, i, j, h) == 0
    decreases h
  {
    var n := |b|;
    if h >= n {
      CmpSplit(b, i, j, n, h - n);
      StepWrap(i, n, n);
      StepWrap(j, n, n);
      CmpRound(b, i, j, h - n);
    } else {
      CmpSplit(b, i, j, h, n - h);
    }
  }

  /** Equal rotations stay equal after the same number of steps. */
  lemma EqualStep(b: seq<byte>, i: int, j: int, k: nat)
    requires 0 <= i < |b| && 0 <= j < |b|
    requires Cmp(b, i, j, |b|) == 0
    ensures Cmp(b, Step(i, k, |b|), Step(j, k, |b|), |b|) == 0
    ensures b[Step(i, k, |b|)] == b[Step(j, k, |b|)]
  {
    CmpRound(b, i, j, k + |b|);
    CmpSplit(b, i, j, k, |b|);
    CmpRound(b, i, j, k);
  }

  /** Prefixing two ordered rotations with the same byte keeps their order. */
  lemma PrevOrder(b: seq<byte>, i: int, j: int)
    requires 0 <= i < |b| && 0 <= j < |b|
    requires b[Prev(i, |b|)] == b[Prev(j, |b|)]
    ensures Cmp(b, Prev(i, |b|), Prev(j, |b|), |b|) == Cmp(b, i, j, |b|)
  {
    var i', j' := Prev(i, |b|), Prev(j, |b|);
    assert Cmp(b, i', j', 1 + |b|) == Cmp(b, i, j, |b|);
    CmpRound(b, i', j', 1 + |b|);
  }

  /** Two listings sorted by the same prefix length agree at every row, up to equal prefixes. */
  lemma SortedListingsAgree(b: seq<byte>, p: seq<int>, q: seq<int>, h: nat, r: int)
    requires SortedBy(b, p, h) && SortedBy(b, q, h) && 0 <= r < |b|
    ensures Cmp(b, p[r], q[r], h) == 0
  {
    NotBelow(b, p, q, h, r);
    NotBelow(b, q, p, h, r);
    CmpSwap(b, p[r], q[r], h);
  }

  lemma RowsOrdered(b: seq<byte>, p: seq<int>, x: int, y: int, h: nat)
    requires SortedBy(b, p, h) && 0 <= x <= y < |b|
    ensures Cmp(b, p[x], p[y], h) <= 0
  {
    CmpSwap(b, p[x], p[y], h);
  }

  lemma NotBelow(b: seq<byte>, p: seq<int>, q: seq<int>, h: nat, r: int)
    requires SortedBy(b, p, h) && SortedBy(b, q, h) && 0 <= r < |b|
    ensures Cmp(b, p[r], q[r], h) >= 0
  {
    var n := |b|;
    if Cmp(b, p[r], q[r], h) < 0 {
      // p[0..r] are r + 1 distinct rotations below q[r], so they would all sit in q[..r]
      forall x | 0 <= x <= r ensures p[x] in q[..r] {
        var y := PermHits(q, n, p[x]);
        RowsOrdered(b, p, x, r, h);
        CmpTrans(b, p[x], p[r], q[r], h);
        CmpSwap(b, p[x], q[r], h);
        if y >= r {
          RowsOrdered(b, q, r, y, h);
          assert false;
        }
        assert q[..r][y] == p[x];
      }
      InjectiveCard(p[..r + 1]);
      InjectiveCard(q[..r]);
      SubsetCard(Elems(p[..r + 1]), Elems(q[..r]));
      assert false;
    }
  }
}
