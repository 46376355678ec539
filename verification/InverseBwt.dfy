/** Undoing the block sort: the linking vector built from the last column, and the walk along it. */
module InverseBwt {
  import opened Permutations
  import opened Counting
  import opened Rotations

  /** The byte cyclically before each sorted rotation. */
  ghost function LastColumn(b: seq<byte>, p: seq<int>): (l: seq<byte>)
    requires IsPerm(p, |b|)
    ensures |l| == |b|
  {
    seq(|b|, r requires 0 <= r < |b| => b[Prev(p[r], |b|)])
  }

  /** Bytes met on k steps of the walk from row r: step to t[r] and take the last column there. */
  ghost function Walk(l: seq<byte>, t: seq<int>, r: int, k: nat): (out: seq<byte>)
    requires IsPerm(t, |l|) && 0 <= r < |l|
    ensures |out| == k
    decreases k
  {
    if k == 0 then [] else [l[t[r]]] + Walk(l, t, t[r], k - 1)
  }

  /** Following the stable order of the last column moves every row to the next rotation, up to ties. */
  lemma LinkAdvances(b: seq<byte>, p: seq<int>, t: seq<int>, r: int)
    requires SortedRotations(b, p) && StableOrder(LastColumn(b, p), t)
    requires 0 <= r < |b|
    ensures IsPerm(t, |b|)
    ensures Cmp(b, p[r], Prev(p[t[r]], |b|), |b|) == 0
  {
    var n := |b|;
    var l := LastColumn(b, p);
    StableOrderRows(l, t);
    var q := seq(n, x requires 0 <= x < n => Prev(p[t[x]], n));
    forall x, y | 0 <= x < y < n ensures q[x] != q[y] && Cmp(b, q[x], q[y], n) <= 0 {
      assert KeyBefore(l, t[x], t[y]);
      if l[t[x]] == l[t[y]] {
        RowsOrdered(b, p, t[x], t[y], n);
        PrevOrder(b, p[t[x]], p[t[y]]);
      }
      assert p[t[x]] != p[t[y]];
      assert Next(q[x], n) == p[t[x]] && Next(q[y], n) == p[t[y]];
    }
    SortedListingsAgree(b, p, q, |b|, r);
  }

  /** From any row whose rotation equals rotation i, the walk spells the block cyclically from i. */
  lemma {:induction false} WalkSpells(b: seq<byte>, p: seq<int>, t: seq<int>, r: int, i: int, k: nat)
    requires SortedRotations(b, p) && StableOrder(LastColumn(b, p), t) && IsPerm(t, |b|)
    requires 0 <= r < |b| && 0 <= i < |b| && Cmp(b, p[r], i, |b|) == 0
    ensures forall x :: 0 <= x < k ==> Walk(LastColumn(b, p), t, r, k)[x] == b[Step(i, x, |b|)]
    decreases k
  {
    if k > 0 {
      var n := |b|;
      var l := LastColumn(b, p);
      LinkAdvances(b, p, t, r);
      var s := t[r];
      CmpSwap(b, p[r], Prev(p[s], n), n);
      CmpTrans(b, Prev(p[s], n), p[r], i, n);
      CmpSwap(b, Prev(p[s], n), i, n);
      CmpSwap(b, p[r], i, n);
      CmpTrans(b, i, p[r], Prev(p[s], n), n);
      assert Cmp(b, Prev(p[s], n), i, n) == 0;
      EqualStep(b, Prev(p[s], n), i, 0);
      EqualStep(b, Prev(p[s], n), i, 1);
      assert Step(Prev(p[s], n), 1, n) == p[s] && Step(i, 1, n) == Next(i, n);
      assert l[s] == b[i];
      WalkSpells(b, p, t, s, Next(i, n), k - 1);
      forall x | 0 <= x < k ensures Walk(l, t, r, k)[x] == b[Step(i, x, n)] {
        if x > 0 {
          assert Walk(l, t, r, k)[x] == Walk(l, t, s, k - 1)[x - 1];
        }
      }
    }
  }

  /**
   * Inverse Burrows-Wheeler theorem.  For every block, every sorted listing of its rotations and every
   * row holding a rotation equal to rotation 0, the walk gives back exactly the block.
   */
  lemma WalkInverts(b: seq<byte>, p: seq<int>, t: seq<int>, orig: int)
    requires SortedRotations(b, p) && StableOrder(LastColumn(b, p), t)
    requires 0 <= orig < |b| && Cmp(b, p[orig], 0, |b|) == 0
    ensures IsPerm(t, |b|)
    ensures Walk(LastColumn(b, p), t, orig, |b|) == b
  {
    LinkAdvances(b, p, t, orig);
    WalkSpells(b, p, t, orig, 0, |b|);
    forall x | 0 <= x < |b| ensures Walk(LastColumn(b, p), t, orig, |b|)[x] == b[x] {
      StepWrap(0, x, |b|);
    }
  }

  /** Any two sorted listings give the same last column, whatever they do with equal rotations. */
  lemma LastColumnUnique(b: seq<byte>, p: seq<int>, q: seq<int>)
    requires SortedRotations(b, p) && SortedRotations(b, q)
    ensures LastColumn(b, p) == LastColumn(b, q)
  {
    var n := |b|;
    forall r | 0 <= r < n ensures b[Prev(p[r], n)] == b[Prev(q[r], n)] {
      SortedListingsAgree(b, p, q, |b|, r);
      EqualStep(b, p[r], q[r], n - 1);
      StepWrap(p[r], n - 1, n);
      StepWrap(q[r], n - 1, n);
    }
  }

  /** Running totals of the byte counts: cftab[c] is the number of last-column bytes below c. */
  method CumulativeCounts(unzftab: array<int>, cftab: array<int>, nblock: int, ghost l: seq<byte>)
    returns (ok: bool)
    requires nblock == |l|
    requires unzftab.Length == 256 && cftab.Length == 257 && unzftab != cftab
    requires forall c :: 0 <= c < 256 ==> unzftab[c] == Occ(l, |l|, c)
    modifies cftab
    ensures ok
    ensures forall c :: 0 <= c <= 256 ==> cftab[c] == Below(l, |l|, c)
  {
    for i := 0 to 256 {
      if unzftab[i] < 0 || unzftab[i] > nblock { return false; }
    }
    cftab[0] := 0;
    for i := 1 to 257
      invariant cftab[0] == 0
      invariant forall c :: 1 <= c < i ==> cftab[c] == unzftab[c - 1]
    {
      cftab[i] := unzftab[i - 1];
    }
    BelowEnds(l, nblock, 0, 256);
    for i := 1 to 257
      invariant forall c :: 0 <= c < i ==> cftab[c] == Below(l, nblock, c)
      invariant forall c :: i <= c <= 256 ==> cftab[c] == unzftab[c - 1]
    {
      BelowNext(l, nblock, i - 1);
      cftab[i] := cftab[i] + cftab[i - 1];
    }
    for i := 0 to 257
      invariant forall c :: 0 <= c <= 256 ==> cftab[c] == Below(l, nblock, c)
    {
      if cftab[i] < 0 || cftab[i] > nblock { return false; }
    }
    for i := 1 to 257
      invariant forall c :: 0 <= c <= 256 ==> cftab[c] == Below(l, nblock, c)
    {
      BelowMono(l, nblock, i - 1, i);
      if cftab[i - 1] > cftab[i] { return false; }
    }
    return true;
  }

  /** Bucket cursors after the first i bytes: each points behind the bytes of its value seen so far. */
  ghost predicate Cursors(l: seq<int>, i: nat, cf: seq<int>)
    requires i <= |l|
  {
    |cf| == 257 && forall c :: 0 <= c < 256 ==> cf[c] == Below(l, |l|, c) + Occ(l, i, c)
  }

  lemma CursorsStep(l: seq<int>, i: nat, cf: seq<int>)
    requires i < |l| && 0 <= l[i] < 256 && Cursors(l, i, cf)
    ensures Cursors(l, i + 1, cf[l[i] := cf[l[i]] + 1])
  {
  }

  /** The links of the first i positions are in place, the other rows are still empty. */
  ghost predicate Linked(l: seq<int>, i: nat, t: seq<int>)
    requires i <= |l|
  {
    && |t| == |l|
    && (forall x :: 0 <= x < i ==> t[Rank(l, x)] == x)
    && (forall r :: 0 <= r < |l| ==> -1 <= t[r] < i)
    && (forall r {:trigger Rank(l, t[r])} :: 0 <= r < |l| && t[r] != -1 ==> Rank(l, t[r]) == r)
  }

  lemma LinkStep(l: seq<int>, i: nat, t: seq<int>)
    requires i < |l| && Linked(l, i, t)
    ensures t[Rank(l, i)] == -1
    ensures Linked(l, i + 1, t[Rank(l, i) := i])
  {
    var k := Rank(l, i);
    if t[k] != -1 { RankInjective(l, t[k], i); }
  }

  lemma LinkedAll(l: seq<int>, t: seq<int>)
    requires Linked(l, |l|, t)
    ensures StableOrder(l, t) && forall r :: 0 <= r < |l| ==> t[r] != -1
  {
    StableOrderRows(l, t);
  }

  /**
   * Fast mode: packs the linking vector above the last-column bytes of tt, in one in-place pass.
   * A word holds byte + 256 * link; each link field is still zero when it is filled in.
   */
  method BuildLinks(tt: array<int>, cftab: array<int>, nblock: int) returns (ghost t: seq<int>)
    requires 0 <= nblock <= tt.Length && cftab.Length == 257 && tt != cftab
    requires forall i :: 0 <= i < nblock ==> 0 <= tt[i] < 256
    requires forall c :: 0 <= c <= 256 ==> cftab[c] == Below(tt[..nblock], nblock, c)
    modifies tt, cftab
    ensures StableOrder(old(tt[..nblock]), t)
    ensures forall i :: 0 <= i < nblock ==> tt[i] == old(tt[i]) + 256 * t[i]
    ensures forall i :: nblock <= i < tt.Length ==> tt[i] == old(tt[i])
  {
    ghost var l := tt[..nblock];
    t := seq(nblock, _ => -1);  // -1: link field not filled in yet
    for i := 0 to nblock
      invariant Cursors(l, i, cftab[..])
      invariant Linked(l, i, t)
      invariant forall r :: 0 <= r < nblock ==> tt[r] == Word(l[r], t[r])
      invariant forall r :: nblock <= r < tt.Length ==> tt[r] == old(tt[r])
    {
      var uc := tt[i] % 256;
      var k := cftab[uc];
      assert k == Rank(l, i);
      LinkStep(l, i, t);
      tt[k] := tt[k] + 256 * i;
      t := t[k := i];
      ghost var cf := cftab[..];
      CursorsStep(l, i, cf);
      cftab[uc] := cftab[uc] + 1;
      assert cftab[..] == cf[uc := cf[uc] + 1];
    }
    LinkedAll(l, t);
  }

  /** A tt word: the byte in the low eight bits, the link above it (absent: zero). */
  ghost function Word(byte: int, link: int): (w: int)
    requires 0 <= byte < 256
    ensures w % 256 == byte
  {
    if link == -1 then byte else byte + 256 * link
  }
}
