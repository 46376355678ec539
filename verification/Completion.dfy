/** What the compressor has written can always be completed to a stream of all its data. */
module Completion {
  import opened Permutations
  import opened Bits
  import opened BitIO
  import opened Rotations
  import opened HuffmanTree
  import opened CanonicalCodes
  import opened MoveToFront
  import opened GenerateMtf
  import opened DecodeMachine
  import opened BlockFormat
  import opened SymbolRoundTrip
  import opened RunLength
  import opened CompressBlock
  import opened Compressor
  import opened StreamDecoding
  import opened Passages

  // ---------- a block of one byte ----------

  lemma {:induction false} FlatKraft(n: nat)
    ensures Kraft(seq(n, _ => 9), 20) == n * Pow2(11)
    decreases n
  {
    if n > 0 {
      FlatKraft(n - 1);
      assert seq(n, _ => 9)[..n - 1] == seq(n - 1, _ => 9);
      hide Pow2;
      assert n * Pow2(11) == (n - 1) * Pow2(11) + Pow2(11);
    }
  }

  /** Nine bits for every symbol is a code for any alphabet. */
  lemma FlatDecodable(n: nat)
    requires n <= 258
    ensures Decodable(seq(n, _ => 9), 20) && GoodLengths(seq(n, _ => 9), n)
  {
    FlatKraft(n);
    assert Pow2(11) == 2048;
    Pow2Add(9, 11);
    assert Pow2(9) == 512;
    hide Pow2, Kraft;
  }

  /** Some plan, good enough for any symbols of the alphabet. */
  ghost function FlatPlan(alpha: nat, n: nat): Plan {
    var len := seq(alpha, _ => 9);
    Plan(seq((n + GROUP_SIZE - 1) / GROUP_SIZE, _ => 0), [len, len])
  }

  lemma FlatGood(inUse: seq<bool>, syms: seq<int>)
    requires GoodMap(inUse) && AlphaSize(inUse) <= 258 && SymbolRange(syms, AlphaSize(inUse) - 1) && 1 <= |syms| <= 900001
    ensures GoodBlock(inUse, FlatPlan(AlphaSize(inUse), |syms|), syms)
  {
    hide Used, Decodable;
    var alpha := AlphaSize(inUse);
    var p := FlatPlan(alpha, |syms|);
    FlatDecodable(alpha);
    forall x | 0 <= x < |syms| ensures x / GROUP_SIZE < |p.sel| {}
    forall t | 0 <= t < |p.lens| ensures p.lens[t] == seq(alpha, _ => 9) {}
  }

  ghost function OnlyMark(x: byte): (m: seq<bool>)
    ensures |m| == 256 && m[x]
  {
    seq(256, v => v == x)
  }

  ghost function ByteRec(x: byte, c: Crc): BlockRec
  {
    var alpha := if |Used(OnlyMark(x), 256)| > 0 then AlphaSize(OnlyMark(x)) else 2;
    BlockRec([x], [x], c.finalise(Fold(c.update, c.seed, [x])), 0, [x], OnlyMark(x),
             FlatPlan(alpha, if UsedMarks([x], OnlyMark(x)) then |ColumnSymbols([x], OnlyMark(x))| else 1))
  }

  lemma ByteSorted(x: byte)
    ensures SortedAs([x], [x], 0, [0])
  {
    assert IsPerm([0], 1);
  }

  lemma ByteExpands(x: byte)
    ensures Expand([x]) == Data([x])
  {
    assert Lead([x]) == 1;
    assert [x][1..] == [];
    assert Copies(x, 1) == Copies(x, 0) + [x] == [x];
  }

  lemma ByteRecGood(x: byte, level: int, c: Crc)
    requires 1 <= level <= 9 && Wide(c)
    ensures GoodRec(ByteRec(x, c), level) && ByteRec(x, c).data == [x]
    ensures ByteRec(x, c).crc == c.finalise(Fold(c.update, c.seed, [x]))
  {
    hide Used, Expand, SortedAs, ColumnSymbols, Fold, FlatPlan, GoodBlock;
    var m := OnlyMark(x);
    assert UsedMarks([x], m);
    ByteSorted(x);
    ByteExpands(x);
    ColumnDecodes([x], m, level);
    FlatGood(m, ColumnSymbols([x], m));
  }

  /** Blocks of one byte each. */
  ghost function ByteRecs(s: seq<byte>, c: Crc): (rs: seq<BlockRec>)
    ensures |rs| == |s|
  {
    if s == [] then [] else ByteRecs(s[..|s| - 1], c) + [ByteRec(s[|s| - 1], c)]
  }

  /** More data always makes more blocks. */
  lemma {:induction false} MoreBlocks(rs: seq<BlockRec>, s: seq<byte>, level: int, c: Crc) returns (more: seq<bool>)
    requires 1 <= level <= 9 && Wide(c) && GoodRecs(rs, level, c)
    ensures GoodRecs(rs + ByteRecs(s, c), level, c) && RecsData(rs + ByteRecs(s, c)) == RecsData(rs) + s
    ensures StreamBits(rs + ByteRecs(s, c), level, c) == StreamBits(rs, level, c) + more
    decreases |s|
  {
    hide GoodRecs, GoodRec, StreamBits, RecsData, RecBits, ByteRec, UsedMarks, GoodBlock, ColumnSymbols, Fold, Wide;
    if s == [] {
      assert rs + ByteRecs(s, c) == rs && RecsData(rs) + [] == RecsData(rs);
      more := [];
      assert StreamBits(rs, level, c) + [] == StreamBits(rs, level, c);
    } else {
      var init, x := s[..|s| - 1], s[|s| - 1];
      var m := MoreBlocks(rs, init, level, c);
      var q, r := rs + ByteRecs(init, c), ByteRec(x, c);
      ByteRecGood(x, level, c);
      RecReady(r, level);
      RecAdded(q, r, level, c);
      assert rs + ByteRecs(s, c) == q + [r];
      Assoc(RecsData(rs), init, [x]);
      assert init + [x] == s;
      more := m + RecBits(r);
      Assoc(StreamBits(rs, level, c), m, RecBits(r));
    }
  }

  // ---------- bytes from bits ----------

  lemma {:induction false} Pack(bits: seq<bool>) returns (s: seq<byte>)
    requires |bits| % 8 == 0
    ensures ByteBits(s) == bits
    decreases |bits|
  {
    hide ByteBits, ToBits, Value, Pow2;
    if bits == [] {
      s := [];
      NoBytes();
    } else {
      var k := |bits| - 8;
      var t := Pack(bits[..k]);
      var v := OneByte(bits[k..]);
      s := t + [v];
      ByteBitsPush(t, v);
      assert bits[..k] + bits[k..] == bits;
    }
  }

  lemma NoBytes()
    ensures ByteBits([]) == []
  {
  }

  lemma OneByte(last: seq<bool>) returns (v: byte)
    requires |last| == 8
    ensures ToBits(v, 8) == last
  {
    ValueBound(last);
    BitsOfValue(last);
    Word32();
    hide ToBits, Value, Pow2;
    v := Value(last);
  }

  lemma {:induction false} BytesInjective(a: seq<byte>, b: seq<byte>)
    requires ByteBits(a) <= ByteBits(b)
    ensures a <= b
    decreases |a|
  {
    if a != [] {
      ByteBitsFirst(a);
      assert |b| > 0;
      ByteBitsFirst(b);
      Word32();
      ValueOfBits(a[0], 8);
      ValueOfBits(b[0], 8);
      hide ByteBits, ToBits, Value, Pow2;
      assert ByteBits(a)[..8] == ToBits(a[0], 8) && ByteBits(b)[..8] == ToBits(b[0], 8);
      assert ByteBits(a)[..8] == ByteBits(b)[..8];
      assert ByteBits(a)[8..] == ByteBits(a[1..]) && ByteBits(b)[8..] == ByteBits(b[1..]);
      BytesInjective(a[1..], b[1..]);
    }
  }

  // ---------- completing what has been written ----------

  /** dest is the beginning, and not the whole, of a stream of the source. */
  ghost predicate Beginning(dest: seq<byte>, source: seq<byte>, level: int, c: Crc) {
    exists whole, rs :: IsStream(whole, rs, level, c) && RecsData(rs) == source && dest < whole
  }

  lemma {:induction false} CombinedRange(rs: seq<BlockRec>, c: Crc)
    requires Wide(c)
    ensures 0 <= Combined(rs, c) < WORD
  {
    if rs != [] { CombinedRange(rs[..|rs| - 1], c); }
  }

  /** Bits that some stream of the source begins with, and bytes of them that were handed over. */
  lemma FromBits(dest: seq<byte>, bits: seq<bool>, rs: seq<BlockRec>, rest: seq<byte>, level: int, c: Crc)
    requires 1 <= level <= 9 && Wide(c) && GoodRecs(rs, level, c)
    requires ByteBits(dest) <= bits && bits <= StreamBits(rs, level, c)
    ensures Beginning(dest, RecsData(rs) + rest, level, c)
  {
    hide GoodRecs, StreamBits, RecsData, ByteBits, StreamTail, Combined, Wide, ByteRecs, Bytes;
    var more := MoreBlocks(rs, rest, level, c);
    var all := rs + ByteRecs(rest, c);
    CombinedRange(all, c);
    var body := StreamBits(all, level, c) + StreamTail(Combined(all, c));
    HeadTailLength(level, Combined(all, c));
    var pad := (8 - |body| % 8) % 8;
    var whole := Pack(body + Zeros(pad));
    assert bits <= body + Zeros(pad);
    BytesInjective(dest, whole);
    Longer(dest, whole, |bits|);
    assert IsStream(whole, all, level, c);
  }

  lemma Longer(a: seq<byte>, b: seq<byte>, n: int)
    requires a <= b && |ByteBits(a)| <= n < |ByteBits(b)|
    ensures a < b
  {
  }

  lemma WriterPrefix(w: BitWriter)
    requires w.Valid()
    ensures ByteBits(w.drained + w.zbits) <= w.Contents()
  {
    hide ByteBits, ToBits;
  }

  lemma BytesPrefix(a: seq<byte>, z: seq<byte>, k: nat)
    requires k <= |z|
    ensures ByteBits(a + z[..k]) <= ByteBits(a + z)
  {
    hide ByteBits;
    ByteBitsJoin(a + z[..k], z[k..]);
    assert (a + z[..k]) + z[k..] == a + z;
  }

  /** A compressor that is still finishing has handed over the beginning of a stream of all its input, and not all of it. */
  lemma Completable(c: Compressor, source: seq<byte>)
    requires c.Valid() && c.mode == Finishing && c.consumed + c.nextIn == source && c.availInExpect == |c.nextIn| && c.Unfinished()
    ensures Beginning(c.delivered, source, c.level, c.crc)
  {
    if c.finished {
      FinishedBeginning(c, source);
    } else {
      OpenBeginning(c, source);
    }
  }

  lemma FinishedBeginning(c: Compressor, source: seq<byte>)
    requires c.Valid() && c.finished && c.consumed + c.nextIn == source && c.availInExpect == |c.nextIn| && c.Unfinished()
    ensures Beginning(c.delivered, source, c.level, c.crc)
  {
    hide GoodRecs, StreamBits, StreamTail, RecsData, Combined, ByteBits, RunEncoder.Core, Separated;
    var whole := c.w.drained + c.w.zbits;
    assert Spell([]) == [] && RecsData(c.blocks) + [] == RecsData(c.blocks) && c.consumed + [] == c.consumed;
    assert IsStream(whole, c.blocks, c.level, c.crc);
    assert c.delivered < whole;
  }

  lemma OpenBeginning(c: Compressor, source: seq<byte>)
    requires c.Valid() && !c.finished && c.consumed + c.nextIn == source
    ensures Beginning(c.delivered, source, c.level, c.crc)
  {
    hide GoodRecs, StreamBits, RecsData, Combined, ByteBits, RunEncoder.Core, Separated, Spell, BitWriter.Valid, BitWriter.Contents, Beginning;
    WriterPrefix(c.w);
    BytesPrefix(c.w.drained, c.w.zbits, c.stateOutPos);
    var left := if c.state == Input then c.enc.Taken() else Spell(PendingOf(c.enc.stateInCh, c.enc.stateInLen));
    Assoc(RecsData(c.blocks), left, c.nextIn);
    FromBits(c.delivered, c.w.Contents(), c.blocks, left + c.nextIn, c.level, c.crc);
  }
}
