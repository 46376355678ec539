/** From the parsed block back to data: reading the block's bytes along the links, and undoing the run-length coding. */
module BlockOutput {
  import opened Permutations
  import opened Counting
  import opened Rotations
  import opened InverseBwt
  import opened MoveToFront
  import opened SmallMode
  import opened RunLength

  /** Rows with their ranks: the links of small mode before they are turned round. */
  ghost function Ranks(l: seq<byte>): (tv: seq<int>)
    ensures |tv| == |l| && forall x :: 0 <= x < |l| ==> tv[x] == Rank(l, x)
  {
    seq(|l|, x requires 0 <= x < |l| => Rank(l, x))
  }

  /** The bytes of a block, one at a time, in either memory mode. */
  class BlockSource {
    const small: bool
    const limit: int  // 100000 * blockSize100k
    const tt: array<int>
    const ll16: array<int>
    const ll4: array<int>
    const cftab: array<int>
    var tPos: int
    ghost var l: seq<byte>
    ghost var t: seq<int>
    ghost var cycle: set<int>
    ghost var row: int  // where the walk stands
    ghost var block: seq<byte>
    ghost var pos: nat  // how many bytes have been read

    ghost predicate Valid()
      reads this, tt, ll16, ll4, cftab
    {
      && Standing(l, t, row, block, pos, limit)
      && (if small then SmallReady(ll16[..], ll4[..], cftab[..], l, cycle) && row in cycle && tPos == row
          else FastReady(tt[..], l, t) && tPos == t[row])
    }

    constructor Fast(tt: array<int>, origPtr: int, limit: int, ghost l: seq<byte>, ghost t: seq<int>)
      requires 0 <= origPtr < |l| <= limit && StableOrder(l, t) && IsPerm(t, |l|) && FastReady(tt[..], l, t)
      ensures Valid() && pos == 0 && block == Walk(l, t, origPtr, |l|) && this.tt == tt && this.l == l && !small
      ensures fresh(ll16) && fresh(ll4) && fresh(cftab)
    {
      hide Standing, Walk, StableOrder, FastReady, SmallReady;
      StandingStart(l, t, origPtr, limit);
      FastFacts(tt[..], l, t, origPtr);
      small, this.limit, this.tt := false, limit, tt;
      ll16, ll4, cftab := new int[0], new int[0], new int[0];
      tPos := tt[origPtr] / 256;
      this.l, this.t, cycle, row, block, pos := l, t, {}, origPtr, Walk(l, t, origPtr, |l|), 0;
    }

    constructor Small(ll16: array<int>, ll4: array<int>, cftab: array<int>, origPtr: int, limit: int,
                      ghost l: seq<byte>, ghost t: seq<int>, ghost cycle: set<int>)
      requires 0 <= origPtr < |l| <= limit && StableOrder(l, t) && IsPerm(t, |l|)
      requires SmallReady(ll16[..], ll4[..], cftab[..], l, cycle) && origPtr in cycle
      ensures Valid() && pos == 0 && block == Walk(l, t, origPtr, |l|) && this.ll16 == ll16 && this.ll4 == ll4 && this.cftab == cftab
      ensures this.l == l && small && fresh(tt)
    {
      hide Standing, Walk, StableOrder, FastReady, SmallReady;
      StandingStart(l, t, origPtr, limit);
      small, this.limit, this.ll16, this.ll4, this.cftab := true, limit, ll16, ll4, cftab;
      tt := new int[0];
      tPos := origPtr;
      this.l, this.t, this.cycle, row, block, pos := l, t, cycle, origPtr, Walk(l, t, origPtr, |l|), 0;
    }

    /** BZ_GET_FAST or BZ_GET_SMALL: the next byte of the block; after the last one, some byte. */
    method Get() returns (c: byte)
      requires Valid()
      modifies this`tPos, this`row, this`pos
      ensures Valid() && pos == old(pos) + 1
      ensures old(pos) < |block| ==> c == block[old(pos)]
    {
      hide Standing, StableOrder, SmallReady, FastReady, Links, Link, Packed, Backwards, Below, Ranks;
      WalkNext(l, t, row, block, pos, limit);
      if small {
        SmallFacts(ll16[..], ll4[..], cftab[..], l, cycle, row);
        if tPos >= limit { assert false; }  // only on damaged links
        c := IndexIntoF(tPos, cftab, l);
        SmallIsFast(l, Ranks(l), t, Links(ll16[..], ll4[..], |l|), cycle, row, c);
        LinkAt(ll16[..], ll4[..], |l|, row);
        tPos := Link(ll16[..], ll4[..], tPos);
      } else {
        FastFacts(tt[..], l, t, t[row]);
        if tPos >= limit { assert false; }  // only on damaged links
        c := tt[tPos] % 256;
        tPos := tt[tPos] / 256;
      }
      row := t[row];
      pos := pos + 1;
    }
  }

  /** The walk of the last column stands at row, with pos bytes of the block behind it. */
  ghost predicate Standing(l: seq<byte>, t: seq<int>, row: int, block: seq<byte>, pos: nat, limit: int) {
    && 0 < |l| <= limit && StableOrder(l, t) && IsPerm(t, |l|) && 0 <= row < |l|
    && |block| == |l| && (pos < |l| ==> Walk(l, t, row, |l| - pos) == block[pos..])
  }

  ghost predicate SmallReady(ll16: seq<int>, ll4: seq<int>, cftab: seq<int>, l: seq<byte>, cycle: set<int>) {
    && Packed(ll16, ll4, |l|) && Backwards(Ranks(l), Links(ll16, ll4, |l|), cycle)
    && |cftab| == 257 && forall c :: 0 <= c <= 256 ==> cftab[c] == Below(l, |l|, c)
  }

  ghost predicate FastReady(tt: seq<int>, l: seq<byte>, t: seq<int>) {
    |l| == |t| <= |tt| && forall i :: 0 <= i < |l| ==> tt[i] == l[i] + 256 * t[i]
  }

  lemma SmallFacts(ll16: seq<int>, ll4: seq<int>, cftab: seq<int>, l: seq<byte>, cycle: set<int>, row: int)
    requires SmallReady(ll16, ll4, cftab, l, cycle) && row in cycle
    ensures Packed(ll16, ll4, |l|) && Backwards(Ranks(l), Links(ll16, ll4, |l|), cycle) && 0 <= row < |l| <= |ll16| && row / 2 < |ll4|
    ensures |Ranks(l)| == |l| && forall x :: 0 <= x < |l| ==> Ranks(l)[x] == Rank(l, x)
    ensures |cftab| == 257 && forall c :: 0 <= c <= 256 ==> cftab[c] == Below(l, |l|, c)
  {
  }

  lemma FastFacts(tt: seq<int>, l: seq<byte>, t: seq<int>, i: int)
    requires FastReady(tt, l, t) && IsPerm(t, |l|) && 0 <= i < |l|
    ensures i < |tt| && 0 <= tt[i] && tt[i] % 256 == l[i] && tt[i] / 256 == t[i] && 0 <= t[i] < |l|
  {
  }

  lemma StandingStart(l: seq<byte>, t: seq<int>, orig: int, limit: int)
    requires 0 <= orig < |l| <= limit && StableOrder(l, t) && IsPerm(t, |l|)
    ensures Standing(l, t, orig, Walk(l, t, orig, |l|), 0, limit)
  {
    hide StableOrder, Walk;
    assert Walk(l, t, orig, |l|)[0..] == Walk(l, t, orig, |l|);
  }

  lemma WalkNext(l: seq<byte>, t: seq<int>, row: int, block: seq<byte>, pos: nat, limit: int)
    requires Standing(l, t, row, block, pos, limit)
    ensures StableOrder(l, t) && IsPerm(t, |l|) && |t| == |l| <= limit && 0 <= row < |l| && 0 <= t[row] < |l| == |block|
    ensures pos < |l| ==> l[t[row]] == block[pos]
    ensures Standing(l, t, t[row], block, pos + 1, limit)
  {
    hide StableOrder;
    if pos < |l| {
      var w := Walk(l, t, row, |l| - pos);
      assert w == [l[t[row]]] + Walk(l, t, t[row], |l| - (pos + 1));
      assert w[0] == block[pos..][0];
      assert w[1..] == block[pos..][1..];
      assert block[pos..][1..] == block[pos + 1..];
    }
  }

  // ---------- runs ----------

  lemma ExpandTail(s: seq<byte>)
    requires s != []
    ensures Expand(s).Data? ==> Expand(s).out != []
    ensures Lead(s) < 4 ==> Expand(s) == Before(Copies(s[0], Lead(s)), Expand(s[Lead(s)..]))
    ensures Lead(s) == 4 ==> Expand(s) == if |s| == 4 then Damaged else Before(Copies(s[0], (s[4] as int) + 4), Expand(s[5..]))
  {
    assert s[0] == Copies(s[0], 1)[0];
    assert |Copies(s[0], Lead(s))| >= 1;
  }

  /** What is still to be written: the run in progress, then what the rest of the block spells. */
  ghost function RemainingOf(ch: byte, len: int, used: nat, b: seq<byte>): (e: Expanded) {
    if used < 1 || used > |b| + 1 then Damaged else Before(Copies(ch, len), Expand(b[used - 1..]))
  }

  /** Output of a block in any number of calls. */
  class BlockWriter {
    const src: BlockSource
    const nblock: int
    const crcUpdate: (int, byte) -> int
    var stateOutCh: byte
    var stateOutLen: int
    var nblockUsed: nat
    var k0: byte
    var blockCRC: int

    ghost predicate Valid()
      reads this, src, src.tt, src.ll16, src.ll4, src.cftab
    {
      && src.Valid() && nblock == |src.block| && 0 <= stateOutLen && 1 <= nblockUsed == src.pos
      && (nblockUsed <= nblock ==> k0 == src.block[nblockUsed - 1])
    }

    ghost function Remaining(): (e: Expanded)
      reads this, src
    {
      RemainingOf(stateOutCh, stateOutLen, nblockUsed, src.block)
    }

    /** The first byte is fetched ahead. */
    constructor (src: BlockSource, nblock: int, crcUpdate: (int, byte) -> int, crcSeed: int)
      requires src.Valid() && src.pos == 0 && nblock == |src.block| && nblock > 0
      modifies src
      ensures Valid() && Remaining() == Expand(src.block) && this.src == src && src.block == old(src.block) && blockCRC == crcSeed
      ensures this.crcUpdate == crcUpdate && this.nblock == nblock
    {
      hide BlockSource.Valid, RemainingOf, Expand;
      RemainingStart(src.block);
      this.src, this.nblock, this.crcUpdate, stateOutCh, stateOutLen, nblockUsed, k0, blockCRC := src, nblock, crcUpdate, 0, 0, 0, 0, crcSeed;
      new;
      k0 := src.Get();
      nblockUsed := 1;
    }

    /** Is the block written completely? */
    predicate Finished()
      reads this
    {
      nblockUsed == nblock + 1 && stateOutLen == 0
    }

    /**
     * unRLE_obuf_to_output: writes what fits.  Every call continues exactly where the last one stopped, whatever
     * space the calls were given.
     */
    method Write(availOut0: nat) returns (out: seq<byte>, corrupt: bool)
      requires Valid()
      modifies this, src
      ensures Valid() && src.block == old(src.block) && blockCRC == Fold(crcUpdate, old(blockCRC), out)
      ensures |out| <= availOut0
      ensures old(Remaining()) == Before(out, Remaining()) && (Remaining() == Data([]) <==> Finished())
      ensures if corrupt then Remaining() == Damaged else |out| == availOut0 || Finished()
    {
      hide BlockSource.Valid, RemainingOf, Fold, Before;
      out, corrupt := [], false;
      ghost var all := Remaining();
      FoldEmpty(crcUpdate, blockCRC);
      NothingBefore(all);
      while true
        invariant Valid() && src.block == old(src.block) && blockCRC == Fold(crcUpdate, old(blockCRC), out)
        invariant |out| <= availOut0 && !corrupt
        invariant all == Before(out, Remaining())
        decreases |src.block| + 3 - nblockUsed
      {
        ghost var o := out;
        var emitted := Emit(availOut0 - |out|);
        out := out + emitted;
        FoldJoin(crcUpdate, old(blockCRC), o, emitted);
        BeforeJoin(o, emitted, Remaining());
        RemainingCases(stateOutCh, stateOutLen, nblockUsed, src.block);
        BeforeData(out, Remaining());
        if stateOutLen > 0 {
          return;
        }
        if nblockUsed > nblock + 1 {
          return out, true;
        }
        if nblockUsed == nblock + 1 {
          return;
        }
        StartRun();
      }
    }

    /** Writes the current run as far as there is space. */
    method Emit(availOut: nat) returns (out: seq<byte>)
      requires Valid()
      modifies this`stateOutLen, this`blockCRC
      ensures Valid() && |out| <= availOut && (stateOutLen == 0 || |out| == availOut)
      ensures old(Remaining()) == Before(out, Remaining())
      ensures blockCRC == Fold(crcUpdate, old(blockCRC), out)
    {
      hide BlockSource.Valid, RemainingOf, Fold, Before;
      out := [];
      FoldEmpty(crcUpdate, blockCRC);
      NothingBefore(Remaining());
      while stateOutLen > 0 && |out| < availOut
        invariant Valid() && |out| <= availOut && blockCRC == Fold(crcUpdate, old(blockCRC), out)
        invariant old(Remaining()) == Before(out, Remaining())
        decreases stateOutLen
      {
        EmitOne(out, stateOutCh, stateOutLen, nblockUsed, src.block);
        FoldLast(crcUpdate, old(blockCRC), out, stateOutCh);
        out := out + [stateOutCh];
        blockCRC := crcUpdate(blockCRC, stateOutCh);
        stateOutLen := stateOutLen - 1;
      }
    }

    /** Starts the run at the read position: one to three bytes, or four and a count. */
    method StartRun()
      requires Valid() && nblockUsed <= nblock && stateOutLen == 0
      modifies this`stateOutCh, this`stateOutLen, this`nblockUsed, this`k0, src`tPos, src`row, src`pos
      ensures Valid() && src.block == old(src.block)
      ensures Remaining() == old(Remaining()) && stateOutLen >= 1 && nblockUsed > old(nblockUsed)
    {
      hide BlockSource.Valid, RemainingOf;
      ghost var b, used, ch := src.block, nblockUsed, stateOutCh;
      stateOutCh := k0;
      var k1 := src.Get();
      nblockUsed := nblockUsed + 1;
      if k1 != k0 || nblockUsed == nblock + 1 {
        ShortRun(b, used, ch, 1);
        if k1 != k0 { k0 := k1; }
        stateOutLen := 1;
        return;
      }
      stateOutLen := 2;
      k1 := src.Get();
      nblockUsed := nblockUsed + 1;
      if nblockUsed == nblock + 1 || k1 != k0 {
        ShortRun(b, used, ch, 2);
        if nblockUsed < nblock + 1 { k0 := k1; }
        return;
      }
      ThirdByte(used, ch);
    }

    /** Two equal bytes have been read, and a third. */
    method ThirdByte(ghost used: nat, ghost ch: byte)
      requires src.Valid() && nblock == |src.block| && 1 <= used && nblockUsed == used + 2 <= nblock && src.pos == nblockUsed
      requires k0 == stateOutCh == src.block[used - 1] == src.block[used] == src.block[used + 1]
      modifies this`stateOutLen, this`nblockUsed, this`k0, src`tPos, src`row, src`pos
      ensures Valid() && src.block == old(src.block)
      ensures Remaining() == RemainingOf(ch, 0, used, src.block) && stateOutLen >= 1 && nblockUsed > used
    {
      hide BlockSource.Valid, RemainingOf;
      ghost var b := src.block;
      stateOutLen := 3;
      var k1 := src.Get();
      nblockUsed := nblockUsed + 1;
      if nblockUsed == nblock + 1 || k1 != k0 {
        ShortRun(b, used, ch, 3);
        if nblockUsed < nblock + 1 { k0 := k1; }
        return;
      }
      k1 := src.Get();
      nblockUsed := nblockUsed + 1;
      stateOutLen := (k1 as int) + 4;
      LongRun(b, used, ch, stateOutCh, stateOutLen);
      k0 := src.Get();
      nblockUsed := nblockUsed + 1;
    }
  }

  /** The state after a run of k < 4 bytes that starts at the read position. */
  lemma ShortRun(b: seq<byte>, used: nat, ch: byte, k: nat)
    requires 1 <= used && 1 <= k <= 3 && used - 1 + k <= |b| && forall x :: used - 1 <= x < used - 1 + k ==> b[x] == b[used - 1]
    requires used - 1 + k < |b| ==> b[used - 1 + k] != b[used - 1]
    ensures RemainingOf(b[used - 1], k, used + k, b) == RemainingOf(ch, 0, used, b)
  {
    var i, s := used - 1, b[used - 1..];
    RunTails(b, i);
    ExpandTail(s);
    NothingBefore(Expand(s));
    assert Lead(s) == k;
    hide Expand, Before, Copies, Lead;
  }

  /** The state after a run of four bytes and its count; the count may be missing. */
  lemma LongRun(b: seq<byte>, used: nat, ch: byte, c: byte, n: int)
    requires 1 <= used && used + 3 <= |b| && b[used + 2] == b[used + 1] == b[used] == b[used - 1]
    requires used + 3 < |b| ==> c == b[used - 1] && n == (b[used + 3] as int) + 4
    ensures RemainingOf(c, n, used + 5, b) == RemainingOf(ch, 0, used, b)
  {
    var i, s := used - 1, b[used - 1..];
    RunTails(b, i);
    ExpandTail(s);
    NothingBefore(Expand(s));
    assert Lead(s) == 4;
    hide Expand, Before, Copies, Lead;
  }

  /** The tails of a block behind its first few bytes. */
  lemma RunTails(b: seq<byte>, i: int)
    requires 0 <= i < |b|
    ensures var s := b[i..];
      && (forall k :: 0 <= k <= 5 && i + k <= |b| ==> s[k..] == b[i + k..])
      && (forall k :: 0 <= k < 5 && i + k < |b| ==> s[k] == b[i + k])
  {
  }

  lemma NothingBefore(e: Expanded)
    ensures Before([], e) == e
    ensures forall c: byte :: Before(Copies(c, 0), e) == e
  {
    assert e.Data? ==> [] + e.out == e.out;
  }

  lemma BeforeJoin(s: seq<byte>, t: seq<byte>, e: Expanded)
    ensures Before(s, Before(t, e)) == Before(s + t, e)
  {
    assert e.Data? ==> s + (t + e.out) == s + t + e.out;
  }

  /** Writing one byte of a run leaves a run one shorter. */
  lemma EmitOne(out: seq<byte>, c: byte, n: int, used: nat, b: seq<byte>)
    requires n > 0
    ensures Before(out, RemainingOf(c, n, used, b)) == Before(out + [c], RemainingOf(c, n - 1, used, b))
  {
    hide Expand;
    if 1 <= used <= |b| + 1 {
      var e := Expand(b[used - 1..]);
      assert Copies(c, n) == [c] + Copies(c, n - 1);
      assert e.Data? ==> out + (Copies(c, n) + e.out) == (out + [c]) + (Copies(c, n - 1) + e.out);
    }
  }

  lemma RemainingStart(b: seq<byte>)
    ensures forall c: byte :: RemainingOf(c, 0, 1, b) == Expand(b)
  {
    assert b[0..] == b;
    NothingBefore(Expand(b));
  }

  /** Nothing remains exactly when the run is written and the block has been read to its end. */
  lemma RemainingCases(c: byte, n: int, used: nat, b: seq<byte>)
    requires n >= 0 && used >= 1
    ensures var e := RemainingOf(c, n, used, b);
      && (e.Data? ==> (e.out == [] <==> n == 0 && used == |b| + 1))
      && (used > |b| + 1 ==> e == Damaged)
      && (n == 0 && used == |b| + 1 ==> e == Data([]))
  {
    if used <= |b| + 1 {
      var s := b[used - 1..];
      NothingBefore(Expand(s));
      if s != [] { ExpandTail(s); }
      assert |Copies(c, n)| == n;
    }
  }

  lemma BeforeData(s: seq<byte>, e: Expanded)
    ensures Before(s, e).Data? <==> e.Data?
    ensures e.Data? ==> Before(s, e) == Data(s + e.out)
  {
  }

  lemma FoldEmpty(f: (int, byte) -> int, seed: int)
    ensures Fold(f, seed, []) == seed
  {
  }

  lemma FoldLast(f: (int, byte) -> int, seed: int, s: seq<byte>, c: byte)
    ensures Fold(f, seed, s + [c]) == f(Fold(f, seed, s), c)
  {
    assert (s + [c])[..|s|] == s;
  }
}
