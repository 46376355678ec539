/** The explicit stack of pending segments used by both quicksorts, and why it never grows deep. */
module QSortStack {
  import opened Bits

  ghost function Size(lo: int, hi: int): int {
    hi - lo + 1
  }

  /** Entries [0, sp) of the two stacks are disjoint segments of [from, to]. */
  ghost predicate Segments(los: seq<int>, his: seq<int>, sp: int, from: int, to: int) {
    && 0 <= sp <= |los| && sp <= |his|
    && (forall k :: 0 <= k < sp ==> from <= los[k] <= his[k] + 1 <= to + 1)
    && (forall j, k :: 0 <= j < k < sp ==> his[j] < los[k] || his[k] < los[j])
  }

  ghost predicate Pending(los: seq<int>, his: seq<int>, sp: int, x: int, y: int)
    requires 0 <= sp <= |los| && sp <= |his|
  {
    exists k :: 0 <= k < sp && los[k] <= x && y <= his[k]
  }

  /** What remains to be done, counting each pending segment by its size (and depth allowance). */
  ghost function Work(los: seq<int>, his: seq<int>, sp: int): (r: int)
    requires 0 <= sp <= |los| && sp <= |his|
    requires forall k :: 0 <= k < sp ==> los[k] <= his[k] + 1
    ensures r >= 0
    decreases sp
  {
    if sp == 0 then 0 else Work(los, his, sp - 1) + 2 * Size(los[sp - 1], his[sp - 1]) + 1
  }

  lemma {:induction false} WorkSame(los: seq<int>, his: seq<int>, los': seq<int>, his': seq<int>, sp: int)
    requires 0 <= sp <= |los| && sp <= |his| && sp <= |los'| && sp <= |his'|
    requires forall k :: 0 <= k < sp ==> los[k] <= his[k] + 1 && los'[k] == los[k] && his'[k] == his[k]
    ensures Work(los', his', sp) == Work(los, his, sp)
    decreases sp
  {
    if sp > 0 { WorkSame(los, his, los', his', sp - 1); }
  }

  /** Each stack level holds at most half of what the level below may hold. */
  ghost predicate Shallow(los: seq<int>, his: seq<int>, sp: int, total: int)
    requires 0 <= sp <= |los| && sp <= |his|
  {
    forall k :: 0 <= k < sp ==> Size(los[k], his[k]) * Pow2(k) <= total
  }

  lemma Pow2At31()
    ensures Pow2(31) == 0x8000_0000
  {
    assert Pow2(8) == 256;
    assert Pow2(16) == 0x1_0000;
    assert Pow2(24) == 0x100_0000;
  }

  /** A segment worth splitting, of a table with 31-bit indices, cannot sit above level 30. */
  lemma DepthBound(size: int, k: nat, total: int)
    requires size >= 1 && size * Pow2(k) <= total < 0x8000_0000
    ensures k <= 30
  {
    if k >= 31 {
      Pow2Mono(31, k);
      Pow2At31();
      assert size * Pow2(k) >= Pow2(k) by { MulAtLeast(size, Pow2(k)); }
      assert false;
    }
  }

  lemma MulAtLeast(a: int, b: int)
    requires a >= 1 && b >= 0
    ensures a * b >= b
  {
  }

  /** Half the size fits one level further up. */
  lemma HalfFits(small: int, size: int, k: nat, total: int)
    requires 2 * small <= size && size * Pow2(k) <= total
    ensures small * Pow2(k + 1) <= total
  {
    assert small * Pow2(k + 1) == (2 * small) * Pow2(k);
    MulMono(2 * small, size, Pow2(k));
  }

  lemma MulMono(a: int, b: int, c: int)
    requires a <= b && c >= 0
    ensures a * c <= b * c
  {
  }

  lemma SmallerFits(small: int, size: int, k: nat, total: int)
    requires small <= size && size * Pow2(k) <= total
    ensures small * Pow2(k) <= total
  {
    MulMono(small, size, Pow2(k));
  }
}
