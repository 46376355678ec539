/** Comparing two rotations in the main block sort: bytes first, then bytes and cached orderings. */
module MainCompare {
  import opened Rotations

  const OVERSHOOT := 34

  /** The block array carries a copy of its first bytes behind its end, so short walks need no wrapping. */
  ghost predicate Extended(b: seq<byte>, block: seq<int>) {
    && |b| > OVERSHOOT && |b| + OVERSHOOT <= |block|
    && forall x :: 0 <= x < |b| + OVERSHOOT ==> block[x] == b[Wrap(x, |b|)]
  }

  function Wrap(x: int, n: int): (r: int)
    requires 0 <= x < 2 * n
    ensures 0 <= r < n
  {
    if x < n then x else x - n
  }

  /**
   * The quadrant cache.  Between two positions holding the same byte, a smaller quadrant proves the
   * rotation to be no larger; equal quadrants say nothing.  The cache is extended like the block.
   */
  ghost predicate QuadrantsSound(b: seq<byte>, quadrant: seq<int>) {
    && |b| > OVERSHOOT && |b| + OVERSHOOT <= |quadrant|
    && (forall x :: |b| <= x < |b| + OVERSHOOT ==> quadrant[x] == quadrant[x - |b|])
    && forall i, j :: 0 <= i < |b| && 0 <= j < |b| && b[i] == b[j] && quadrant[i] < quadrant[j] ==>
         Cmp(b, i, j, |b|) <= 0
  }

  /** What every comparison of the main sort relies on. */
  ghost predicate Comparable(b: seq<byte>, block: seq<int>, quadrant: seq<int>) {
    Extended(b, block) && |b| + OVERSHOOT <= |quadrant| && QuadrantsSound(b, quadrant)
  }

  /** After k equal bytes from v and w, the cursors stand k places on. */
  ghost predicate EqualSoFar(b: seq<byte>, v: int, w: int, k: nat, i1: int, i2: int) {
    && 0 <= v < |b| && 0 <= w < |b|
    && 0 <= i1 < 2 * |b| && 0 <= i2 < 2 * |b|
    && Cmp(b, v, w, k) == 0
    && Wrap(i1, |b|) == Step(v, k, |b|) && Wrap(i2, |b|) == Step(w, k, |b|)
  }

  lemma OneMore(b: seq<byte>, v: int, w: int, k: nat, i1: int, i2: int)
    requires EqualSoFar(b, v, w, k, i1, i2)
    ensures b[Wrap(i1, |b|)] < b[Wrap(i2, |b|)] ==> Cmp(b, v, w, |b|) < 0
    ensures b[Wrap(i1, |b|)] > b[Wrap(i2, |b|)] ==> Cmp(b, v, w, |b|) > 0
    ensures b[Wrap(i1, |b|)] == b[Wrap(i2, |b|)] && i1 + 1 < 2 * |b| && i2 + 1 < 2 * |b| ==>
              EqualSoFar(b, v, w, k + 1, i1 + 1, i2 + 1)
  {
    var n := |b|;
    CmpSplit(b, v, w, k, 1);
    CmpRound(b, v, w, k + 1);
    StepSplit(v, k, 1, n);
    StepSplit(w, k, 1, n);
    var x, y := Step(v, k, n), Step(w, k, n);
    assert Cmp(b, x, y, 1) == if b[x] < b[y] then -1 else if b[x] > b[y] then 1 else 0;
    assert Step(x, 1, n) == Next(x, n) && Step(y, 1, n) == Next(y, n);
  }

  lemma ByQuadrant(b: seq<byte>, quadrant: seq<int>, v: int, w: int, k: nat, i1: int, i2: int)
    requires QuadrantsSound(b, quadrant) && EqualSoFar(b, v, w, k, i1, i2)
    requires i1 < |b| + OVERSHOOT && i2 < |b| + OVERSHOOT
    requires b[Wrap(i1, |b|)] == b[Wrap(i2, |b|)]
    ensures quadrant[i1] < quadrant[i2] ==> Cmp(b, v, w, |b|) <= 0
    ensures quadrant[i1] > quadrant[i2] ==> Cmp(b, v, w, |b|) >= 0
  {
    var n := |b|;
    CmpSplit(b, v, w, k, n);
    CmpRound(b, v, w, k + n);
    CmpSwap(b, Step(v, k, n), Step(w, k, n), n);
  }

  lemma WrapBack(b: seq<byte>, v: int, w: int, k: nat, i1: int, i2: int)
    requires EqualSoFar(b, v, w, k, i1, i2)
    ensures EqualSoFar(b, v, w, k, Wrap(i1, |b|), Wrap(i2, |b|))
  {
  }

  lemma AllEqual(b: seq<byte>, v: int, w: int, k: nat, i1: int, i2: int)
    requires EqualSoFar(b, v, w, k, i1, i2) && k >= |b|
    ensures Cmp(b, v, w, |b|) == 0
  {
    CmpRound(b, v, w, k);
  }

  /** What a comparison may answer: exact, but for equal rotations, where either answer is allowed. */
  ghost predicate Answers(b: seq<byte>, v: int, w: int, gt: bool)
    requires 0 <= v < |b| && 0 <= w < |b|
  {
    if gt then Cmp(b, v, w, |b|) >= 0 else Cmp(b, v, w, |b|) <= 0
  }

  /**
   * Compares the rotations at i1 and i2.  The first twelve bytes are compared alone, then bytes and
   * quadrants in groups of eight, each group spending one unit of budget.  No index reaches nblock + 34.
   */
  method GtU(i1_0: int, i2_0: int, block: array<int>, quadrant: array<int>, nblock: int, budget0: int, ghost b: seq<byte>)
    returns (gt: bool, budget: int)
    requires nblock == |b| && Extended(b, block[..]) && nblock + OVERSHOOT <= quadrant.Length && QuadrantsSound(b, quadrant[..])
    requires 0 <= i1_0 < nblock + 15 && 0 <= i2_0 < nblock + 15
    ensures Answers(b, Wrap(i1_0, nblock), Wrap(i2_0, nblock), gt)
    ensures budget <= budget0
  {
    hide Cmp, Step, QuadrantsSound;
    ghost var v, w := Wrap(i1_0, nblock), Wrap(i2_0, nblock);
    var i1, i2 := i1_0, i2_0;
    StartEqual(b, i1, i2);
    budget := budget0;
    for t := 0 to 12
      invariant i1 == i1_0 + t && i2 == i2_0 + t && EqualSoFar(b, v, w, t, i1, i2)
    {
      OneMore(b, v, w, t, i1, i2);
      var c1, c2 := block[i1], block[i2];
      if c1 != c2 { return c1 > c2, budget; }
      i1, i2 := i1 + 1, i2 + 1;
    }
    var k := nblock + 8;
    ghost var done := 12;
    while k >= 0
      invariant done == 12 + (nblock + 8 - k) && k >= -8
      invariant 0 <= i1 < nblock + 27 && 0 <= i2 < nblock + 27 && EqualSoFar(b, v, w, done, i1, i2)
      invariant budget <= budget0
    {
      var decided, g := EightMore(i1, i2, block, quadrant, b, v, w, done);
      if decided { return g, budget; }
      WrapBack(b, v, w, done + 8, i1 + 8, i2 + 8);
      i1, i2 := Wrap(i1 + 8, nblock), Wrap(i2 + 8, nblock);
      k := k - 8;
      budget := budget - 1;
      done := done + 8;
    }
    AllEqual(b, v, w, done, i1, i2);
    return false, budget;
  }

  /** One group of eight bytes with their quadrants. */
  method EightMore(i1_0: int, i2_0: int, block: array<int>, quadrant: array<int>,
                   ghost b: seq<byte>, ghost v: int, ghost w: int, ghost k: nat)
    returns (decided: bool, gt: bool)
    requires Extended(b, block[..]) && |b| + OVERSHOOT <= quadrant.Length && QuadrantsSound(b, quadrant[..])
    requires EqualSoFar(b, v, w, k, i1_0, i2_0) && i1_0 < |b| + 27 && i2_0 < |b| + 27
    ensures decided ==> Answers(b, v, w, gt)
    ensures !decided ==> EqualSoFar(b, v, w, k + 8, i1_0 + 8, i2_0 + 8)
  {
    hide Cmp, Step, QuadrantsSound;
    var i1, i2 := i1_0, i2_0;
    for t := 0 to 8
      invariant i1 == i1_0 + t && i2 == i2_0 + t && EqualSoFar(b, v, w, k + t, i1, i2)
    {
      OneMore(b, v, w, k + t, i1, i2);
      var c1, c2 := block[i1], block[i2];
      if c1 != c2 { return true, c1 > c2; }
      ByQuadrant(b, quadrant[..], v, w, k + t, i1, i2);
      var q1, q2 := quadrant[i1], quadrant[i2];
      if q1 != q2 { return true, q1 > q2; }
      i1, i2 := i1 + 1, i2 + 1;
    }
    return false, false;
  }

  lemma StartEqual(b: seq<byte>, i1: int, i2: int)
    requires 0 <= i1 < 2 * |b| && 0 <= i2 < 2 * |b|
    ensures EqualSoFar(b, Wrap(i1, |b|), Wrap(i2, |b|), 0, i1, i2)
  {
  }
}
