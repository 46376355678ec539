/** Canonical codes from code lengths, and the tables that decode them bit by bit. */
module CanonicalCodes {
  import opened Bits
  import opened Counting
  import opened HuffmanTree

  const MAX_CODE_LEN := 23

  lemma Distribute(a: int, b: int, p: int)
    ensures (a + b) * p == a * p + b * p
  {
  }

  lemma DoubledSum(f: int, c: int, p: int)
    ensures (2 * (f + c)) * p == f * (2 * p) + c * (2 * p)
  {
    assert (2 * (f + c)) * p == (f + c) * (2 * p);
    Distribute(f, c, 2 * p);
  }

  lemma Twice(f: int, s: int, p: int)
    requires f >= s * p
    ensures 2 * f >= s * (2 * p)
  {
  }

  lemma Cancel(a: int, b: int, p: int)
    requires p >= 1 && a * p <= b * p
    ensures a <= b
  {
    assert (a - b) * p <= 0;
  }

  lemma QuotientBelow(v: int, q: int, p: int)
    requires p >= 1 && 0 <= v < q * p
    ensures 0 <= v / p < q
  {
    var d := v / p;
    assert v == d * p + v % p;
    assert d * p < q * p;
    assert (d - q) * p < 0;
  }

  lemma QuotientAtLeast(v: int, s: int, p: int)
    requires p >= 1 && v >= s * p
    ensures v / p >= s
  {
    var d := v / p;
    assert v == d * p + v % p;
    assert (d - s) * p > -p;
    assert d - s <= -1 ==> (d - s) * p <= -p;
  }

  /** The first code of length n: codes of one length count up, and one more bit doubles. */
  function First(len: seq<int>, n: nat): (r: int)
    ensures r >= 0
  {
    if n == 0 then 0 else 2 * (First(len, n - 1) + Occ(len, |len|, n - 1))
  }

  ghost function CodeOf(len: seq<int>, i: int): (r: int)
    requires 0 <= i < |len| && 0 <= len[i]
    ensures r >= 0
  {
    First(len, len[i]) + Occ(len, i, len[i])
  }

  /** Code lengths a decoder accepts: between 1 and t, with a Kraft sum of at most one. */
  ghost predicate Decodable(len: seq<int>, t: nat) {
    (forall i :: 0 <= i < |len| ==> 1 <= len[i] <= t) && Kraft(len, t) <= Pow2(t)
  }

  /** The part of the Kraft sum due to codes shorter than n. */
  ghost function ShortPart(len: seq<int>, m: nat, t: nat, n: int): (r: int)
    requires m <= |len| && forall i :: 0 <= i < |len| ==> 0 <= len[i] <= t
    ensures r >= 0
  {
    if m == 0 then 0 else ShortPart(len, m - 1, t, n) + if len[m - 1] < n then Pow2(t - len[m - 1]) else 0
  }

  lemma {:induction false} ShortPartNext(len: seq<int>, m: nat, t: nat, n: nat)
    requires m <= |len| && (forall i :: 0 <= i < |len| ==> 0 <= len[i] <= t) && n <= t
    ensures ShortPart(len, m, t, n + 1) == ShortPart(len, m, t, n) + Occ(len, m, n) * Pow2(t - n)
    decreases m
  {
    if m > 0 {
      ShortPartNext(len, m - 1, t, n);
      Distribute(Occ(len, m - 1, n), 1, Pow2(t - n));
    }
  }

  lemma {:induction false} ShortPartBelowKraft(len: seq<int>, m: nat, t: nat, n: int)
    requires m <= |len| && forall i :: 0 <= i < |len| ==> 0 <= len[i] <= t
    ensures ShortPart(len, m, t, n) <= Kraft(len[..m], t)
    decreases m
  {
    if m > 0 {
      ShortPartBelowKraft(len, m - 1, t, n);
      assert len[..m][..m - 1] == len[..m - 1];
    }
  }

  lemma {:induction false} FirstSum(len: seq<int>, t: nat, n: nat)
    requires (forall i :: 0 <= i < |len| ==> 0 <= len[i] <= t) && n <= t
    ensures First(len, n) * Pow2(t - n) == ShortPart(len, |len|, t, n)
    decreases n
  {
    if n == 0 {
      NoneShort(len, |len|, t);
    } else {
      FirstSum(len, t, n - 1);
      ShortPartNext(len, |len|, t, n - 1);
      DoubledSum(First(len, n - 1), Occ(len, |len|, n - 1), Pow2(t - n));
      assert Pow2(t - (n - 1)) == 2 * Pow2(t - n);
      hide Pow2, ShortPart, Occ;
      assert First(len, n) == 2 * (First(len, n - 1) + Occ(len, |len|, n - 1));
    }
  }

  lemma {:induction false} NoneShort(len: seq<int>, m: nat, t: nat)
    requires m <= |len| && forall i :: 0 <= i < |len| ==> 0 <= len[i] <= t
    ensures ShortPart(len, m, t, 0) == 0
    decreases m
  {
    if m > 0 {
      NoneShort(len, m - 1, t);
    }
  }

  /** All codes of length n fit in n bits. */
  lemma CodesFit(len: seq<int>, t: nat, n: nat)
    requires Decodable(len, t) && n <= t
    ensures First(len, n) + Occ(len, |len|, n) <= Pow2(n)
  {
    hide First, Occ, ShortPart, Pow2, Kraft;
    FirstSum(len, t, n);
    ShortPartNext(len, |len|, t, n);
    ShortPartBelowKraft(len, |len|, t, n + 1);
    assert len[..|len|] == len;
    Distribute(First(len, n), Occ(len, |len|, n), Pow2(t - n));
    Pow2Add(n, t - n);
    Cancel(First(len, n) + Occ(len, |len|, n), Pow2(n), Pow2(t - n));
  }

  lemma CodeFits(len: seq<int>, t: nat, i: int)
    requires Decodable(len, t) && 0 <= i < |len|
    ensures CodeOf(len, i) < First(len, len[i]) + Occ(len, |len|, len[i]) <= Pow2(len[i])
  {
    CodesFit(len, t, len[i]);
    OccMono(len, i, |len|, len[i]);
  }

  /** Longer codes lie beyond all extensions of shorter ones. */
  lemma {:induction false} FirstGrows(len: seq<int>, n: nat, k: nat)
    ensures First(len, n + 1 + k) >= (First(len, n) + Occ(len, |len|, n)) * Pow2(1 + k)
    decreases k
  {
    var s := First(len, n) + Occ(len, |len|, n);
    var f, p := First(len, n + k), Pow2(k);
    assert First(len, n + 1 + k) == 2 * (f + Occ(len, |len|, n + k)) && Pow2(1 + k) == 2 * p;
    if k == 0 {
      assert p == 1;
    } else {
      FirstGrows(len, n, k - 1);
      hide First, Occ, Pow2;
      Twice(f, s, p);
    }
  }

  /** Cut to any shorter length n, a code is larger than every code of length n. */
  lemma CodeCut(len: seq<int>, i: int, n: nat)
    requires 0 <= i < |len| && 0 <= n < len[i]
    ensures CodeOf(len, i) / Pow2(len[i] - n) >= First(len, n) + Occ(len, |len|, n)
  {
    hide First, Pow2, Occ;
    var s, p := First(len, n) + Occ(len, |len|, n), Pow2(len[i] - n);
    FirstGrows(len, n, len[i] - n - 1);
    QuotientAtLeast(CodeOf(len, i), s, p);
  }

  /** The code word as bits. */
  ghost function Word(len: seq<int>, i: int): (w: seq<bool>)
    requires 0 <= i < |len| && 0 <= len[i]
    ensures |w| == len[i]
  {
    ToBits(CodeOf(len, i), len[i])
  }

  /** No code word begins with another. */
  lemma PrefixFree(len: seq<int>, t: nat, i: int, j: int)
    requires Decodable(len, t) && 0 <= i < |len| && 0 <= j < |len| && i != j
    ensures !(Word(len, i) <= Word(len, j))
  {
    hide Pow2, ToBits, First, Occ, Kraft;
    CodeFits(len, t, i);
    CodeFits(len, t, j);
    if Word(len, i) <= Word(len, j) {
      var n, k := len[i], len[j] - len[i];
      WordCut(len, t, j, n);
      ValueOfBits(CodeOf(len, i), n);
      assert Word(len, j)[..n] == Word(len, i);
      if k == 0 {
        SameLength(len, i, j);
        Pow2Zero();
      } else {
        CodeCut(len, j, n);
      }
      assert false;
    }
  }

  lemma Pow2Zero()
    ensures Pow2(0) == 1
  {
  }

  lemma SameLength(len: seq<int>, i: int, j: int)
    requires 0 <= i < |len| && 0 <= j < |len| && i != j && len[i] == len[j] >= 0
    ensures CodeOf(len, i) != CodeOf(len, j)
  {
    OccMono(len, if i < j then i else j, if i < j then j else i, len[i]);
  }

  /** The first n bits of a code word are the code with the other bits shifted out. */
  lemma WordCut(len: seq<int>, t: nat, i: int, n: nat)
    requires Decodable(len, t) && 0 <= i < |len| && 0 <= n <= len[i]
    ensures |Word(len, i)| == len[i] && Value(Word(len, i)[..n]) == CodeOf(len, i) / Pow2(len[i] - n)
  {
    var k := len[i] - n;
    CodeFits(len, t, i);
    hide Pow2, First, Occ, Value, ToBits, CodeOf, Decodable;
    BitsSplit(CodeOf(len, i), n, k);
    assert Word(len, i)[..n] == ToBits(CodeOf(len, i) / Pow2(k), n);
    QuotientFits(CodeOf(len, i), n, k);
    ValueOfBits(CodeOf(len, i) / Pow2(k), n);
  }

  lemma QuotientFits(v: int, n: nat, k: nat)
    requires 0 <= v < Pow2(n + k)
    ensures 0 <= v / Pow2(k) < Pow2(n)
  {
    hide Pow2;
    Pow2Add(n, k);
    QuotientBelow(v, Pow2(n), Pow2(k));
  }

  // ---------- assigning codes ----------

  method AssignCodes(code: array<int>, length: array<int>, minLen: int, maxLen: int, alphaSize: int)
    requires code != length && 0 <= alphaSize <= code.Length && alphaSize <= length.Length && 0 <= minLen
    requires forall i :: 0 <= i < alphaSize ==> minLen <= length[i] <= maxLen
    modifies code
    ensures forall i :: 0 <= i < alphaSize ==> code[i] == CodeOf(length[..alphaSize], i)
    ensures forall i :: alphaSize <= i < code.Length ==> code[i] == old(code[i])
  {
    ghost var len := length[..alphaSize];
    var vec := 0;
    NoShorter(len, minLen, minLen);
    var n := minLen;
    while n <= maxLen
      invariant minLen <= n && vec == First(len, n)
      invariant forall i :: 0 <= i < alphaSize && len[i] < n ==> code[i] == CodeOf(len, i)
      invariant forall i :: alphaSize <= i < code.Length ==> code[i] == old(code[i])
    {
      for i := 0 to alphaSize
        invariant vec == First(len, n) + Occ(len, i, n)
        invariant forall x :: 0 <= x < alphaSize && (len[x] < n || (len[x] == n && x < i)) ==> code[x] == CodeOf(len, x)
        invariant forall x :: alphaSize <= x < code.Length ==> code[x] == old(code[x])
      {
        if length[i] == n {
          code[i] := vec;
          vec := vec + 1;
        }
      }
      vec := vec * 2;
      n := n + 1;
    }
  }

  /** Below the smallest length there are no codes, so counting starts at zero. */
  lemma {:induction false} NoShorter(len: seq<int>, minLen: nat, n: nat)
    requires (forall i :: 0 <= i < |len| ==> minLen <= len[i]) && n <= minLen
    ensures First(len, n) == 0
    decreases n
  {
    if n > 0 {
      NoShorter(len, minLen, n - 1);
      NoneOf(len, |len|, n - 1);
    }
  }

  lemma {:induction false} NoneOf(len: seq<int>, m: nat, c: int)
    requires m <= |len| && forall i :: 0 <= i < m ==> len[i] != c
    ensures Occ(len, m, c) == 0
    decreases m
  {
    if m > 0 {
      NoneOf(len, m - 1, c);
    }
  }

  // ---------- decoding tables ----------

  /** limit[n] is the last code of length n, base[n] what to take off it, perm the symbols by length. */
  ghost predicate Tables(limit: seq<int>, base: seq<int>, perm: seq<int>, len: seq<int>, minLen: int, maxLen: int) {
    && |limit| >= MAX_CODE_LEN && |base| >= MAX_CODE_LEN && |perm| >= |len| && 1 <= minLen && maxLen <= 20
    && (forall n :: minLen <= n <= maxLen ==> limit[n] == First(len, n) + Occ(len, |len|, n) - 1)
    && (forall n :: minLen <= n <= maxLen ==> base[n] == First(len, n) - Below(len, |len|, n))
    && (forall i :: 0 <= i < |len| ==> 0 <= Rank(len, i) < |len| && perm[Rank(len, i)] == i)
  }

  /**
   * The decoding loop, which widens its window bit by bit until it is at most the limit: on a code word it stops
   * at exactly the word's length and finds the word's symbol.
   */
  lemma TablesDecode(limit: seq<int>, base: seq<int>, perm: seq<int>, len: seq<int>, minLen: int, maxLen: int, t: nat, i: int)
    requires Decodable(len, t) && Tables(limit, base, perm, len, minLen, maxLen)
    requires 0 <= i < |len| && minLen <= len[i] <= maxLen
    ensures forall n :: minLen <= n < len[i] ==> Value(Word(len, i)[..n]) > limit[n]
    ensures var v := Value(Word(len, i));
      v <= limit[len[i]] && 0 <= v - base[len[i]] < |len| && perm[v - base[len[i]]] == i
  {
    hide Pow2, First, Occ, Below, Value, ToBits, Decodable;
    CodeFits(len, t, i);
    ValueOfBits(CodeOf(len, i), len[i]);
    forall n | minLen <= n < len[i] ensures Value(Word(len, i)[..n]) > limit[n] {
      WordCut(len, t, i, n);
      CodeCut(len, i, n);
    }
    assert 0 <= Rank(len, i) < |len|;
  }

  /** The symbols sorted by code length. */
  method FillPerm(perm: array<int>, length: array<int>, minLen: int, maxLen: int, alphaSize: int)
    requires perm != length && 0 <= alphaSize <= perm.Length && alphaSize <= length.Length
    requires forall i :: 0 <= i < alphaSize ==> minLen <= length[i] <= maxLen
    modifies perm
    ensures var len := length[..alphaSize]; forall i :: 0 <= i < alphaSize ==> perm[Rank(len, i)] == i
  {
    ghost var len := length[..alphaSize];
    var pp := 0;
    BelowEnds(len, alphaSize, minLen, maxLen + 1);
    hide Below, Occ;
    var n := minLen;
    while n <= maxLen
      invariant pp == Below(len, alphaSize, n) && minLen <= n
      invariant Listed(len, perm[..], n, 0)
    {
      OccStart(len, n);
      for j := 0 to alphaSize
        invariant pp == Below(len, alphaSize, n) + Occ(len, j, n)
        invariant Listed(len, perm[..], n, j)
      {
        OccOne(len, j, n);
        ListOne(len, perm[..], n, j);
        if length[j] == n {
          assert pp == Rank(len, j);
          ghost var p := perm[..];
          perm[pp] := j;
          assert perm[..] == p[pp := j];
          pp := pp + 1;
        }
      }
      BelowNext(len, alphaSize, n);
      n := n + 1;
    }
  }

  lemma OccStart(len: seq<int>, n: int)
    ensures Occ(len, 0, n) == 0
  {
  }

  lemma OccOne(len: seq<int>, j: nat, n: int)
    requires j < |len|
    ensures Occ(len, j + 1, n) == Occ(len, j, n) + if len[j] == n then 1 else 0
  {
  }

  /** The symbols shorter than n, and those of length n before j, are in place. */
  ghost predicate Listed(len: seq<int>, perm: seq<int>, n: int, j: int) {
    |perm| >= |len| && forall x :: 0 <= x < |len| && (len[x] < n || (len[x] == n && x < j)) ==> perm[Rank(len, x)] == x
  }

  lemma ListOne(len: seq<int>, perm: seq<int>, n: int, j: int)
    requires Listed(len, perm, n, j) && 0 <= j < |len|
    ensures len[j] != n ==> Listed(len, perm, n, j + 1)
    ensures len[j] == n ==> Listed(len, perm[Rank(len, j) := j], n, j + 1)
    ensures j + 1 == |len| && len[j] == n ==> Listed(len, perm[Rank(len, j) := j], n + 1, 0)
    ensures j + 1 == |len| && len[j] != n ==> Listed(len, perm, n + 1, 0)
  {
    forall x | 0 <= x < |len| && x != j ensures Rank(len, x) != Rank(len, j) {
      RankInjective(len, x, j);
    }
  }

  /** base[n] counts the codes shorter than n. */
  method CountShorter(base: array<int>, length: array<int>, alphaSize: int)
    requires base != length && MAX_CODE_LEN <= base.Length && 0 <= alphaSize <= length.Length
    requires forall i :: 0 <= i < alphaSize ==> 1 <= length[i] <= 20
    modifies base
    ensures forall n :: 0 <= n < MAX_CODE_LEN ==> base[n] == Below(length[..alphaSize], alphaSize, n)
  {
    hide Below;
    ghost var len := length[..alphaSize];
    for i := 0 to MAX_CODE_LEN
      invariant forall n :: 0 <= n < i ==> base[n] == 0
    {
      base[i] := 0;
    }
    for i := 0 to alphaSize
      invariant forall n :: 0 <= n < MAX_CODE_LEN ==> base[n] == Occ(len, i, n - 1)
    {
      base[length[i] + 1] := base[length[i] + 1] + 1;
    }
    BelowEnds(len, alphaSize, 0, 21);
    BelowEnds(len, alphaSize, -1, 21);
    BelowNext(len, alphaSize, -1);
    for i := 1 to MAX_CODE_LEN
      invariant forall n :: 0 <= n < i ==> base[n] == Below(len, alphaSize, n)
      invariant forall n :: i <= n < MAX_CODE_LEN ==> base[n] == Occ(len, alphaSize, n - 1)
    {
      BelowNext(len, alphaSize, i - 1);
      base[i] := base[i] + base[i - 1];
    }
  }

  method CreateDecodeTables(limit: array<int>, base: array<int>, perm: array<int>, length: array<int>,
                            minLen: int, maxLen: int, alphaSize: int)
    requires limit != base && limit != perm && base != perm && limit != length && base != length && perm != length
    requires MAX_CODE_LEN <= limit.Length && MAX_CODE_LEN <= base.Length
    requires 0 < alphaSize <= perm.Length && alphaSize <= length.Length
    requires 1 <= minLen <= maxLen <= 20 && forall i :: 0 <= i < alphaSize ==> minLen <= length[i] <= maxLen
    modifies limit, base, perm
    ensures Tables(limit[..], base[..], perm[..], length[..alphaSize], minLen, maxLen)
    ensures forall n :: 0 <= n < MAX_CODE_LEN && !(minLen <= n <= maxLen) ==> limit[n] == 0
    ensures forall n :: maxLen < n < MAX_CODE_LEN ==> base[n] == Below(length[..alphaSize], alphaSize, n)
  {
    hide Rank, First, Occ, Below;
    ghost var len := length[..alphaSize];
    FillPerm(perm, length, minLen, maxLen, alphaSize);
    CountShorter(base, length, alphaSize);
    FillLimit(limit, base, len, minLen, maxLen);
    FinishBase(limit, base, len, minLen, maxLen);
    forall i | 0 <= i < alphaSize ensures 0 <= Rank(len, i) < alphaSize {
    }
  }

  lemma FirstNext(len: seq<int>, n: nat)
    ensures First(len, n + 1) == 2 * (First(len, n) + Occ(len, |len|, n))
  {
  }

  /** The limits of the lengths from lo below hi are set, all others zero. */
  ghost predicate Limits(limit: seq<int>, len: seq<int>, lo: nat, hi: int) {
    && |limit| >= MAX_CODE_LEN
    && (forall n :: lo <= n < hi ==> n < |limit| && limit[n] == First(len, n) + Occ(len, |len|, n) - 1)
    && (forall n :: 0 <= n < MAX_CODE_LEN && !(lo <= n < hi) ==> limit[n] == 0)
  }

  lemma LimitOne(limit: seq<int>, len: seq<int>, lo: nat, i: int)
    requires Limits(limit, len, lo, i) && lo <= i < MAX_CODE_LEN
    ensures Limits(limit[i := First(len, i) + Occ(len, |len|, i) - 1], len, lo, i + 1)
  {
    hide First, Occ;
  }

  method FillLimit(limit: array<int>, base: array<int>, ghost len: seq<int>, minLen: int, maxLen: int)
    requires limit != base && MAX_CODE_LEN <= limit.Length && MAX_CODE_LEN <= base.Length
    requires 1 <= minLen <= maxLen <= 20 && forall i :: 0 <= i < |len| ==> minLen <= len[i] <= maxLen
    requires forall n :: 0 <= n < MAX_CODE_LEN ==> base[n] == Below(len, |len|, n)
    modifies limit
    ensures Limits(limit[..], len, minLen, maxLen + 1)
  {
    hide Below, Occ, First;
    for i := 0 to MAX_CODE_LEN
      invariant forall n :: 0 <= n < i ==> limit[n] == 0
    {
      limit[i] := 0;
    }
    NoShorter(len, minLen, minLen);
    assert Limits(limit[..], len, minLen, minLen);
    hide Limits;
    var vec := 0;
    for i := minLen to maxLen + 1
      invariant vec == First(len, i) && Limits(limit[..], len, minLen, i)
    {
      BelowNext(len, |len|, i);
      FirstNext(len, i);
      LimitOne(limit[..], len, minLen, i);
      vec := vec + (base[i + 1] - base[i]);
      ghost var lim := limit[..];
      limit[i] := vec - 1;
      assert limit[..] == lim[i := First(len, i) + Occ(len, |len|, i) - 1];
      vec := vec * 2;
    }
  }

  /** From counts of shorter codes to the offsets of the lengths below hi. */
  ghost predicate Bases(base: seq<int>, len: seq<int>, lo: nat, hi: int) {
    && |base| >= MAX_CODE_LEN
    && (forall n :: lo <= n < hi ==> n < |base| && base[n] == First(len, n) - Below(len, |len|, n))
    && (forall n :: hi <= n < MAX_CODE_LEN && 0 <= n ==> base[n] == Below(len, |len|, n))
  }

  lemma BaseOne(base: seq<int>, limit: seq<int>, len: seq<int>, lo: nat, hi: int, i: int)
    requires Bases(base, len, lo, i) && Limits(limit, len, lo, hi) && lo < i < hi <= MAX_CODE_LEN
    ensures limit[i - 1] == First(len, i - 1) + Occ(len, |len|, i - 1) - 1 && base[i] == Below(len, |len|, i)
    ensures Bases(base[i := First(len, i) - Below(len, |len|, i)], len, lo, i + 1)
  {
    hide First, Occ, Below;
  }

  method FinishBase(limit: array<int>, base: array<int>, ghost len: seq<int>, minLen: int, maxLen: int)
    requires limit != base && MAX_CODE_LEN <= limit.Length && MAX_CODE_LEN <= base.Length
    requires 1 <= minLen <= maxLen <= 20 && forall i :: 0 <= i < |len| ==> minLen <= len[i] <= maxLen
    requires forall n :: 0 <= n < MAX_CODE_LEN ==> base[n] == Below(len, |len|, n)
    requires Limits(limit[..], len, minLen, maxLen + 1)
    modifies base
    ensures Bases(base[..], len, minLen, maxLen + 1)
  {
    hide Below, Occ, First, Limits;
    BelowEnds(len, |len|, minLen, maxLen + 1);
    NoShorter(len, minLen, minLen);
    assert Bases(base[..], len, minLen, minLen + 1);
    hide Bases;
    for i := minLen + 1 to maxLen + 1
      invariant Bases(base[..], len, minLen, i)
    {
      FirstNext(len, i - 1);
      BaseOne(base[..], limit[..], len, minLen, maxLen + 1, i);
      ghost var bs := base[..];
      base[i] := (limit[i - 1] + 1) * 2 - base[i];
      assert base[..] == bs[i := First(len, i) - Below(len, |len|, i)];
    }
  }
}
