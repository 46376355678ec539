/** Turning the sorted block into symbols, in place: 16-bit symbols overwrite the 32-bit row pointers behind the cursor. */
module GenerateMtf {
  import opened Permutations
  import opened Rotations
  import opened Counting
  import opened MoveToFront

  // ---------- the bytes in use ----------

  /** The used bytes below i, in order. */
  function Used(inUse: seq<bool>, i: nat): (r: seq<byte>)
    requires i <= |inUse| == 256
    ensures |r| <= i && forall x :: 0 <= x < |r| ==> r[x] < i && inUse[r[x]]
  {
    if i == 0 then [] else Used(inUse, i - 1) + if inUse[i - 1] then [i - 1] else []
  }

  lemma {:induction false} UsedAt(inUse: seq<bool>, i: nat, v: byte)
    requires v < i <= |inUse| == 256 && inUse[v]
    ensures |Used(inUse, v)| < |Used(inUse, i)| && Used(inUse, i)[|Used(inUse, v)|] == v
    ensures Used(inUse, v) <= Used(inUse, i)
  {
    if v < i - 1 {
      UsedAt(inUse, i - 1, v);
    }
  }

  method MakeMapsE(inUse: array<bool>, unseqToSeq: array<int>) returns (nInUse: int)
    requires inUse.Length == unseqToSeq.Length == 256
    modifies unseqToSeq
    ensures nInUse == |Used(inUse[..], 256)|
    ensures forall v :: 0 <= v < 256 && inUse[v] ==> unseqToSeq[v] == |Used(inUse[..], v)|
  {
    nInUse := 0;
    for i := 0 to 256
      invariant nInUse == |Used(inUse[..], i)|
      invariant forall v :: 0 <= v < i && inUse[v] ==> unseqToSeq[v] == |Used(inUse[..], v)|
    {
      if inUse[i] {
        unseqToSeq[i] := nInUse;
        nInUse := nInUse + 1;
      }
    }
  }

  method MakeMapsD(inUse: array<bool>, seqToUnseq: array<byte>) returns (nInUse: int)
    requires inUse.Length == seqToUnseq.Length == 256
    modifies seqToUnseq
    ensures nInUse == |Used(inUse[..], 256)| && seqToUnseq[..nInUse] == Used(inUse[..], 256)
  {
    nInUse := 0;
    for i := 0 to 256
      invariant 0 <= nInUse <= i && seqToUnseq[..nInUse] == Used(inUse[..], i)
    {
      if inUse[i] {
        seqToUnseq[nInUse] := i;
        nInUse := nInUse + 1;
      }
    }
  }

  // ---------- 16-bit symbols over 32-bit words ----------

  /** The k-th 16-bit value of a word array (low half first). */
  function Half(w: seq<int>, k: int): int
    requires 0 <= k < 2 * |w|
  {
    if k % 2 == 0 then w[k / 2] % 65536 else w[k / 2] / 65536 % 65536
  }

  /** A word with one half replaced. */
  function WithHalf(word: int, k: int, v: int): int
  {
    if k % 2 == 0 then word / 65536 * 65536 + v else v * 65536 + word % 65536
  }

  lemma HalfWritten(w: seq<int>, k: int, v: int)
    requires 0 <= k < 2 * |w| && 0 <= v < 65536
    ensures Half(w[k / 2 := WithHalf(w[k / 2], k, v)], k) == v
    ensures forall l :: 0 <= l < 2 * |w| && l != k ==> Half(w[k / 2 := WithHalf(w[k / 2], k, v)], l) == Half(w, l)
  {
    var word := w[k / 2];
    assert (word / 65536 * 65536 + v) / 65536 == word / 65536;
    assert (v * 65536 + word % 65536) / 65536 == v;
    assert (v * 65536 + word % 65536) % 65536 == word % 65536;
    var w' := w[k / 2 := WithHalf(word, k, v)];
    forall l | 0 <= l < 2 * |w| && l != k ensures Half(w', l) == Half(w, l) {
      if l / 2 == k / 2 {
        assert l % 2 != k % 2;
      }
    }
  }

  /** The symbols stand in the halves of the words and are tallied in freq. */
  ghost predicate Written(w: seq<int>, freq: seq<int>, syms: seq<int>) {
    && |syms| <= 2 * |w|
    && (forall k :: 0 <= k < |syms| ==> Half(w, k) == syms[k])
    && forall v :: 0 <= v < |freq| ==> freq[v] == Occ(syms, |syms|, v)
  }

  lemma {:induction false} OccAppend(s: seq<int>, x: int, m: nat, v: int)
    requires m <= |s|
    ensures Occ(s + [x], m, v) == Occ(s, m, v)
  {
    if m > 0 {
      OccAppend(s, x, m - 1, v);
    }
  }

  lemma WriteOne(w: seq<int>, freq: seq<int>, syms: seq<int>, v: int)
    requires Written(w, freq, syms) && |syms| < 2 * |w| && 0 <= v < |freq| <= 65536
    ensures Written(w[|syms| / 2 := WithHalf(w[|syms| / 2], |syms|, v)], freq[v := freq[v] + 1], syms + [v])
  {
    HalfWritten(w, |syms|, v);
    hide Half, WithHalf;
    forall c | 0 <= c < |freq| ensures Occ(syms + [v], |syms| + 1, c) == Occ(syms, |syms|, c) + if c == v then 1 else 0 {
      OccAppend(syms, v, |syms|, c);
    }
  }

  method PutSymbol(ptr: array<int>, mtfFreq: array<int>, wr: int, v: int, ghost alpha: int, ghost syms: seq<int>) returns (wr': int)
    requires ptr != mtfFreq && 0 <= v < alpha <= mtfFreq.Length <= 65536
    requires Written(ptr[..], mtfFreq[..alpha], syms) && wr == |syms| < 2 * ptr.Length
    modifies ptr, mtfFreq
    ensures Written(ptr[..], mtfFreq[..alpha], syms + [v]) && wr' == wr + 1
    ensures forall x :: wr + 1 <= 2 * x < 2 * ptr.Length ==> ptr[x] == old(ptr[x])
  {
    ghost var w, freq := ptr[..], mtfFreq[..alpha];
    WriteOne(w, freq, syms, v);
    hide Written;
    ptr[wr / 2] := WithHalf(ptr[wr / 2], wr, v);
    mtfFreq[v] := mtfFreq[v] + 1;
    assert ptr[..] == w[wr / 2 := WithHalf(w[wr / 2], wr, v)] && mtfFreq[..alpha] == freq[v := freq[v] + 1];
    wr' := wr + 1;
  }

  /** Writes the digits of the pending zero run. */
  method FlushRun(ptr: array<int>, mtfFreq: array<int>, wr0: int, zPend0: int, ghost alpha: int, ghost syms: seq<int>) returns (wr: int)
    requires ptr != mtfFreq && 2 <= alpha <= mtfFreq.Length <= 65536
    requires Written(ptr[..], mtfFreq[..alpha], syms) && wr0 == |syms| && 0 <= zPend0
    requires wr0 + zPend0 <= 2 * ptr.Length
    modifies ptr, mtfFreq
    ensures wr == wr0 + |Digits(zPend0)| && Written(ptr[..], mtfFreq[..alpha], syms + Digits(zPend0))
    ensures forall x :: wr0 + zPend0 <= 2 * x < 2 * ptr.Length ==> ptr[x] == old(ptr[x])
  {
    wr := wr0;
    assert syms + [] == syms;
    if zPend0 > 0 {
      ghost var done := syms;
      var zPend := zPend0 - 1;
      while true
        invariant Written(ptr[..], mtfFreq[..alpha], done) && wr == |done| && zPend >= 0
        invariant done + Digits(zPend + 1) == syms + Digits(zPend0)
        invariant wr + zPend + 1 <= wr0 + zPend0
        invariant forall x :: wr0 + zPend0 <= 2 * x < 2 * ptr.Length ==> ptr[x] == old(ptr[x])
        decreases zPend
      {
        hide Written;
        ghost var digit := zPend % 2;
        assert done + Digits(zPend + 1) == (done + [digit]) + Digits(zPend / 2);
        if zPend % 2 == 1 {
          wr := PutSymbol(ptr, mtfFreq, wr, RUN_B, alpha, done);
        } else {
          wr := PutSymbol(ptr, mtfFreq, wr, RUN_A, alpha, done);
        }
        done := done + [digit];
        if zPend < 2 { assert done + [] == done; break; }
        zPend := (zPend - 2) / 2;
      }
    }
  }

  /** Finds v behind the head of the list while shifting the entries before it back by one, then puts it in front. */
  method ShiftToFront(yy: array<int>, n: int, v: int) returns (j: int)
    requires 1 <= n <= yy.Length && v in yy[..n] && v != yy[0]
    modifies yy
    ensures 1 <= j < n && j == PosOf(old(yy[..n]), v) && yy[..n] == Front(old(yy[..n]), j)
  {
    ghost var y := yy[..n];
    ghost var k := PosOf(y, v);
    forall x | 0 <= x < k ensures y[x] != v { assert y[..k][x] == y[x]; }
    assert y[0] == yy[0] && k < n && y[k] == v;
    hide PosOf, Front;
    var rtmp := yy[1];
    yy[1] := yy[0];
    j := 1;
    while v != rtmp
      invariant 1 <= j <= k
      invariant rtmp == y[j]
      invariant yy[0] == y[0]
      invariant forall x :: 0 <= x < j ==> yy[x + 1] == y[x]
      invariant forall x :: j < x < n ==> yy[x] == y[x]
      decreases k - j
    {
      j := j + 1;
      var rtmp2 := rtmp;
      rtmp := yy[j];
      yy[j] := rtmp2;
    }
    yy[0] := rtmp;
    FrontIs(y, j, yy[..n]);
  }

  lemma FrontIs(y: seq<int>, k: int, t: seq<int>)
    requires 0 <= k < |y| == |t| && t[0] == y[k]
    requires forall x :: 0 <= x < k ==> t[x + 1] == y[x]
    requires forall x :: k < x < |y| ==> t[x] == y[x]
    ensures t == Front(y, k)
  {
    forall x | 0 <= x < |y| ensures t[x] == Front(y, k)[x] {
      if 1 <= x <= k { assert t[(x - 1) + 1] == y[x - 1]; }
    }
  }

  // ---------- the whole pass ----------

  /** The column in list entries: for each row the rank, among the bytes in use, of the byte before the rotation. */
  ghost function Column(b: seq<byte>, p: seq<int>, inUse: seq<bool>): (s: seq<int>)
    requires IsPerm(p, |b|) && |inUse| == 256
    ensures |s| == |b|
  {
    seq(|b|, r requires 0 <= r < |b| => |Used(inUse, b[Prev(p[r], |b|)])|)
  }

  function Numbers(n: nat): (s: seq<int>)
    ensures |s| == n && forall i :: 0 <= i < n ==> s[i] == i
  {
    seq(n, i => i)
  }

  ghost predicate UsedMarks(b: seq<byte>, inUse: seq<bool>) {
    |inUse| == 256 && forall x :: 0 <= x < |b| ==> inUse[b[x]]
  }

  lemma ColumnInUse(b: seq<byte>, p: seq<int>, inUse: seq<bool>)
    requires IsPerm(p, |b|) && UsedMarks(b, inUse) && |b| > 0
    ensures 0 < |Used(inUse, 256)| <= 256 && AllIn(Column(b, p, inUse), Numbers(|Used(inUse, 256)|))
    ensures Injective(Numbers(|Used(inUse, 256)|))
  {
    var s, y := Column(b, p, inUse), Numbers(|Used(inUse, 256)|);
    var v := b[Prev(p[0], |b|)];
    UsedAt(inUse, 256, v);
    hide Used;
    forall e | e in s ensures e in y {
      var x :| 0 <= x < |b| && s[x] == e;
      UsedAt(inUse, 256, b[Prev(p[x], |b|)]);
      assert y[e] == e;
    }
  }

  /** What the encoder has left to write at row i. */
  ghost predicate Pending(y: seq<int>, z: nat, s: seq<int>, syms: seq<int>, eob: int, all: seq<int>) {
    Injective(y) && y != [] && AllIn(s, y) && syms + Symbols(y, z, s, eob) == all
  }

  lemma PendingZero(y: seq<int>, z: nat, s: seq<int>, syms: seq<int>, eob: int, all: seq<int>)
    requires s != [] && Pending(y, z, s, syms, eob, all)
    ensures y != [] && s[0] in y
    ensures s[0] == y[0] ==> Pending(y, z + 1, s[1..], syms, eob, all)
    ensures s[0] != y[0] ==> Pending(Front(y, PosOf(y, s[0])), 0, s[1..], syms + Digits(z) + [PosOf(y, s[0]) + 1], eob, all)
  {
    hide Injective, Digits;
    RestIn(s, y);
    if s[0] != y[0] {
      var k := PosOf(y, s[0]);
      FrontMembers(y, k);
      var rest := Symbols(Front(y, k), 0, s[1..], eob);
      assert syms + (Digits(z) + [k + 1] + rest) == (syms + Digits(z) + [k + 1]) + rest;
    }
  }

  lemma RestIn(s: seq<int>, y: seq<int>)
    requires s != [] && AllIn(s, y)
    ensures s[0] in y
    ensures AllIn(s[1..], y)
  {
    var first, rest := s[0], s[1..];
    assert first in s;
    assert first in y;
    forall v | v in rest ensures v in y {
      var x :| 0 <= x < |rest| && rest[x] == v;
      assert s[x + 1] == v;
      assert v in s;
    }
  }

  lemma PendingEnd(y: seq<int>, z: nat, syms: seq<int>, eob: int, all: seq<int>)
    requires Pending(y, z, [], syms, eob, all)
    ensures syms + Digits(z) + [eob] == all
  {
  }

  /** The list entry for row i, read through the row pointer. */
  method EntryAt(ptr: array<int>, block: array<int>, unseqToSeq: array<int>, nblock: int, i: int,
                 ghost b: seq<byte>, ghost p: seq<int>, ghost inUse: seq<bool>)
    returns (entry: int)
    requires 0 <= i < nblock == |b| <= ptr.Length && nblock <= block.Length && unseqToSeq.Length == 256
    requires block[..nblock] == b && IsPerm(p, |b|) && ptr[i] == p[i] && UsedMarks(b, inUse)
    requires forall v :: 0 <= v < 256 && inUse[v] ==> unseqToSeq[v] == |Used(inUse, v)|
    ensures entry == Column(b, p, inUse)[i]
  {
    var j := ptr[i] - 1;
    if j < 0 { j := j + nblock; }
    assert j == Prev(p[i], nblock) && block[j] == block[..nblock][j] == b[j];
    entry := unseqToSeq[block[j]];
  }

  method ClearTally(mtfFreq: array<int>, eob: int, ptr: array<int>)
    requires 0 <= eob < mtfFreq.Length && ptr != mtfFreq
    modifies mtfFreq
    ensures Written(ptr[..], mtfFreq[..eob + 1], [])
  {
    for i := 0 to eob + 1
      invariant forall v :: 0 <= v < i ==> mtfFreq[v] == 0
    {
      mtfFreq[i] := 0;
    }
  }

  method InitialList(nInUse: int) returns (yy: array<int>)
    requires 0 < nInUse <= 256
    ensures fresh(yy) && yy.Length == 256 && yy[..nInUse] == Numbers(nInUse)
  {
    yy := new int[256];
    for i := 0 to nInUse
      invariant forall x :: 0 <= x < i ==> yy[x] == x
    {
      yy[i] := i;
    }
  }

  method WriteSymbols(ptr: array<int>, block: array<int>, unseqToSeq: array<int>, mtfFreq: array<int>, nblock: int, nInUse: int,
                      ghost b: seq<byte>, ghost p: seq<int>, ghost inUse: seq<bool>, ghost s: seq<int>, ghost all: seq<int>)
    returns (wr: int)
    requires 0 < nblock == |b| <= ptr.Length && nblock <= block.Length && mtfFreq.Length == 258 && unseqToSeq.Length == 256
    requires ptr != block && ptr != mtfFreq && mtfFreq != block && ptr != unseqToSeq && mtfFreq != unseqToSeq
    requires block[..nblock] == b && ptr[..nblock] == p && IsPerm(p, |b|) && UsedMarks(b, inUse)
    requires forall v :: 0 <= v < 256 && inUse[v] ==> unseqToSeq[v] == |Used(inUse, v)|
    requires 0 < nInUse <= 256 && s == Column(b, p, inUse) && Pending(Numbers(nInUse), 0, s, [], nInUse + 1, all)
    modifies ptr, mtfFreq
    ensures wr == |all| && Written(ptr[..], mtfFreq[..nInUse + 2], all)
  {
    hide Pending, Written, Column, UsedMarks, IsPerm, Used, Numbers;
    var eob := nInUse + 1;
    ClearTally(mtfFreq, eob, ptr);
    var yy := InitialList(nInUse);
    ghost var syms: seq<int> := [];
    ghost var alpha := eob + 1;
    assert s[0..] == s;
    wr := 0;
    var zPend := 0;
    for i := 0 to nblock
      invariant Written(ptr[..], mtfFreq[..alpha], syms) && wr == |syms| && 0 <= zPend && wr + zPend <= i
      invariant Pending(yy[..nInUse], zPend, s[i..], syms, eob, all)
      invariant forall x :: i <= x < nblock ==> ptr[x] == p[x]
    {
      PendingStep(yy[..nInUse], zPend, s, i, syms, eob, all);
      var entry := EntryAt(ptr, block, unseqToSeq, nblock, i, b, p, inUse);
      if yy[0] == entry {
        zPend := zPend + 1;
      } else {
        wr := FlushRun(ptr, mtfFreq, wr, zPend, alpha, syms);
        var j := ShiftToFront(yy, nInUse, entry);
        syms := syms + Digits(zPend);
        wr := PutSymbol(ptr, mtfFreq, wr, j + 1, alpha, syms);
        syms := syms + [j + 1];
        zPend := 0;
      }
    }
    assert s[nblock..] == [];
    PendingEnd(yy[..nInUse], zPend, syms, eob, all);
    wr := FlushRun(ptr, mtfFreq, wr, zPend, alpha, syms);
    syms := syms + Digits(zPend);
    wr := PutSymbol(ptr, mtfFreq, wr, eob, alpha, syms);
  }

  lemma PendingStep(y: seq<int>, z: nat, s: seq<int>, i: nat, syms: seq<int>, eob: int, all: seq<int>)
    requires i < |s| && Pending(y, z, s[i..], syms, eob, all)
    ensures y != [] && s[i] in y
    ensures s[i] == y[0] ==> Pending(y, z + 1, s[i + 1..], syms, eob, all)
    ensures s[i] != y[0] ==> Pending(Front(y, PosOf(y, s[i])), 0, s[i + 1..], syms + Digits(z) + [PosOf(y, s[i]) + 1], eob, all)
  {
    assert s[i..][1..] == s[i + 1..];
    PendingZero(y, z, s[i..], syms, eob, all);
  }

  /**
   * Writes the symbols of the sorted block over the row pointers themselves and tallies them.  One more symbol
   * than rows can come out, because of the end mark; no row pointer is overwritten before it is read.
   */
  method GenerateMtfValues(ptr: array<int>, block: array<int>, inUse: array<bool>, mtfFreq: array<int>, nblock: int,
                           ghost b: seq<byte>, ghost p: seq<int>)
    returns (nMTF: int, nInUse: int)
    requires 0 < nblock == |b| <= ptr.Length && nblock <= block.Length && mtfFreq.Length == 258 && inUse.Length == 256
    requires ptr != block && ptr != mtfFreq && mtfFreq != block
    requires block[..nblock] == b && ptr[..nblock] == p && IsPerm(p, |b|) && UsedMarks(b, inUse[..])
    modifies ptr, mtfFreq
    ensures var used := |Used(inUse[..], 256)|;
      && nInUse == used && used > 0 && Injective(Numbers(used)) && AllIn(Column(b, p, inUse[..]), Numbers(used))
      && var syms := Symbols(Numbers(used), 0, Column(b, p, inUse[..]), used + 1);
      && nMTF == |syms| <= nblock + 1 && nMTF <= 2 * ptr.Length
      && (forall k :: 0 <= k < nMTF ==> Half(ptr[..], k) == syms[k])
      && (forall v :: 0 <= v < used + 2 ==> mtfFreq[v] == Occ(syms, nMTF, v))
  {
    hide *;
    var unseqToSeq := new int[256];
    nInUse := MakeMapsE(inUse, unseqToSeq);
    ghost var s := Column(b, p, inUse[..]);
    ColumnInUse(b, p, inUse[..]);
    ghost var y := Numbers(nInUse);
    ghost var all := Symbols(y, 0, s, nInUse + 1);
    PendingStart(y, s, nInUse + 1);
    SymbolsBounds(y, 0, s, nInUse + 1);
    nMTF := WriteSymbols(ptr, block, unseqToSeq, mtfFreq, nblock, nInUse, b, p, inUse[..], s, all);
    WrittenRead(ptr[..], mtfFreq[..nInUse + 2], all);
  }

  lemma PendingStart(y: seq<int>, s: seq<int>, eob: int)
    requires Injective(y) && y != [] && AllIn(s, y)
    ensures Pending(y, 0, s, [], eob, Symbols(y, 0, s, eob))
  {
    assert [] + Symbols(y, 0, s, eob) == Symbols(y, 0, s, eob);
  }

  lemma WrittenRead(w: seq<int>, freq: seq<int>, syms: seq<int>)
    requires Written(w, freq, syms)
    ensures |syms| <= 2 * |w| && (forall k :: 0 <= k < |syms| ==> Half(w, k) == syms[k])
    ensures forall v :: 0 <= v < |freq| ==> freq[v] == Occ(syms, |syms|, v)
  {
  }
}
