/** Compressing one block: sort, symbols, tables, bits; and what the finished bits stand for. */
module CompressBlock {
  import opened Permutations
  import opened Bits
  import opened BitIO
  import opened Rotations
  import opened Counting
  import opened InverseBwt
  import opened MainCompare
  import opened MainQSort
  import BlockSort
  import opened MoveToFront
  import opened GenerateMtf
  import opened DecodeMachine
  import opened BlockFormat
  import opened FormatRoundTrip
  import opened SymbolRoundTrip
  import opened ChooseTables
  import opened SendBlock
  import opened RunLength

  /** A block of the stream: the data it holds, its run-length form, and everything that is written for it. */
  datatype BlockRec = BlockRec(data: seq<byte>, b: seq<byte>, crc: int, orig: int, l: seq<byte>, inUse: seq<bool>, plan: Plan)

  ghost predicate SortedAs(b: seq<byte>, l: seq<byte>, orig: int, p: seq<int>) {
    SortedRotations(b, p) && IsPerm(p, |b|) && l == LastColumn(b, p) && 0 <= orig < |b| && p[orig] == 0
  }

  ghost predicate GoodRec(r: BlockRec, level: int) {
    && 1 <= level <= 9 && 1 <= |r.b| <= 100000 * level && |r.l| == |r.b|
    && Expand(r.b) == Data(r.data)
    && (exists p :: SortedAs(r.b, r.l, r.orig, p))
    && 0 <= r.crc < WORD
    && UsedMarks(r.l, r.inUse) && GoodBlock(r.inUse, r.plan, ColumnSymbols(r.l, r.inUse))
  }

  ghost function RecBits(r: BlockRec): seq<bool>
    requires UsedMarks(r.l, r.inUse) && r.l != [] && GoodBlock(r.inUse, r.plan, ColumnSymbols(r.l, r.inUse))
  {
    BlockBits(r.crc, r.orig, r.inUse, r.plan, ColumnSymbols(r.l, r.inUse))
  }

  /** The symbols written over the row pointers are those of the last column. */
  lemma ColumnIs(b: seq<byte>, p: seq<int>, inUse: seq<bool>)
    requires IsPerm(p, |b|) && UsedMarks(b, inUse) && |b| > 0
    ensures UsedMarks(LastColumn(b, p), inUse) && Column(b, p, inUse) == Entries(LastColumn(b, p), inUse)
  {
    hide Used;
  }

  /** End to end for one block: what is written is parsed back, walked back and expanded to the data. */
  lemma RecDecodes(r: BlockRec, level: int, t: seq<int>)
    requires GoodRec(r, level) && StableOrder(r.l, t)
    ensures Drives(BlockHeader(level, 0), RecBits(r), BlockDone(Header(level, r.crc, false, r.orig), r.l))
    ensures 0 <= r.orig < |r.l| && IsPerm(t, |r.l|) && Walk(r.l, t, r.orig, |r.l|) == r.b
  {
    hide Drives, GoodBlock, ColumnSymbols, UsedMarks, Expand, BlockBits;
    BlockParses(level, r.crc, r.orig, r.l, r.inUse, r.plan);
    var p :| SortedAs(r.b, r.l, r.orig, p);
    CmpSwap(r.b, p[r.orig], 0, |r.b|);
    WalkInverts(r.b, p, t, r.orig);
  }

  /**
   * BZ2_compressBlock without the stream header and trailer: sorts the block and writes it.  The block itself is
   * left as it was.
   */
  method WriteBlock(w: BitWriter, ptr: array<int>, block: array<int>, quadrant: array<int>, eclass: array<int>, bh: array<bool>,
                    ftab: array<int>, mtfFreq: array<int>, inUse: array<bool>, nblock: int, blockCRC: int, workFactor: int,
                    ghost level: int, ghost b: seq<byte>, ghost data: seq<byte>)
    returns (ghost r: BlockRec)
    requires ptr != block && ptr != quadrant && ptr != ftab && ftab != block && ftab != quadrant && quadrant != block
    requires ptr != eclass && block != eclass && mtfFreq != ptr && mtfFreq != block && inUse != bh
    requires 0 < nblock == |b| && nblock <= 100000 * level <= MAX_BLOCK && 1 <= level && nblock <= ptr.Length && nblock <= eclass.Length
    requires nblock + OVERSHOOT <= block.Length && nblock + OVERSHOOT <= quadrant.Length
    requires ftab.Length == 65537 && nblock + 96 <= bh.Length && mtfFreq.Length == 258 && inUse.Length == 256
    requires block[..nblock] == b && UsedMarks(b, inUse[..]) && Expand(b) == Data(data)
    requires w.Valid() && 0 <= blockCRC < WORD
    modifies w, ptr, block, quadrant, eclass, bh, ftab, mtfFreq
    ensures w.Valid() && w.drained == old(w.drained)
    ensures r.data == data && r.b == b && r.crc == blockCRC && GoodRec(r, level)
    ensures w.Contents() == old(w.Contents()) + RecBits(r)
    ensures block[..nblock] == b
  {
    hide BitWriter.Valid, BitWriter.Contents, Expand, SortedRotations, LastColumn, UsedMarks, Used, GoodBlock, HeadBits, MapBits, SelectorBits, TableBits, SymbolBits, ColumnSymbols, Column, Entries, Symbols;
    var origPtr := BlockSort.SortBlock(ptr, block, quadrant, eclass, bh, ftab, nblock, workFactor, b);
    ghost var p := ptr[..nblock];
    SortedPerm(b, p);
    ghost var l := LastColumn(b, p);
    ColumnIs(b, p, inUse[..]);
    SendHead(w, blockCRC, origPtr);
    var nMTF, nInUse := GenerateMtfValues(ptr, block, inUse, mtfFreq, nblock, b, p);
    ghost var syms := ColumnSymbols(l, inUse[..]);
    SymbolsHeld(b, p, inUse[..], ptr[..], nMTF);
    ghost var before := w.Contents();
    var plan := SendMtfValues(w, ptr, nMTF, mtfFreq, inUse, nInUse, syms);
    r := BlockRec(data, b, blockCRC, origPtr, l, inUse[..], plan);
    assert SortedAs(b, l, origPtr, p);
  }

  lemma SortedPerm(b: seq<byte>, p: seq<int>)
    requires SortedRotations(b, p)
    ensures IsPerm(p, |b|)
  {
  }

  /** Block magic, checksum, the bit for unrandomised, and the start row. */
  method SendHead(w: BitWriter, crc: int, orig: int)
    requires w.Valid() && 0 <= crc < WORD && 0 <= orig < 0x100_0000
    modifies w
    ensures w.Valid() && w.Contents() == old(w.Contents()) + HeadBits(crc, orig) && w.drained == old(w.drained)
  {
    hide BitWriter.Valid, BitWriter.Contents, Bytes, ToBits, Pow2;
    ghost var c := w.Contents();
    SmallPowers();
    Word32();
    FourParts(c, Bytes(BLOCK_MAGIC), ToBits(crc, 32), ToBits(0, 1), ToBits(orig, 24));
    PutBytes(w, BLOCK_MAGIC);
    w.PutUInt32(crc);
    w.Put(1, 0);
    w.Put(24, orig);
  }

  /** The symbols found in the words are those of the last column. */
  lemma SymbolsHeld(b: seq<byte>, p: seq<int>, inUse: seq<bool>, w: seq<int>, nMTF: int)
    requires IsPerm(p, |b|) && UsedMarks(b, inUse) && 0 < |b|
    requires Injective(Numbers(|Used(inUse, 256)|)) && Numbers(|Used(inUse, 256)|) != [] && AllIn(Column(b, p, inUse), Numbers(|Used(inUse, 256)|))
    requires var syms := Symbols(Numbers(|Used(inUse, 256)|), 0, Column(b, p, inUse), |Used(inUse, 256)| + 1);
      nMTF == |syms| <= 2 * |w| && forall k :: 0 <= k < nMTF ==> Half(w, k) == syms[k]
    ensures var l := LastColumn(b, p);
      && UsedMarks(l, inUse) && l != [] && GoodMap(inUse) && nMTF == |ColumnSymbols(l, inUse)| >= 1
      && Holds(w, ColumnSymbols(l, inUse), |Used(inUse, 256)| + 2)
  {
    hide Used, Half, LastColumn, Injective, AllIn, Symbols, Column, Entries;
    ColumnIs(b, p, inUse);
    var l, y := LastColumn(b, p), Numbers(|Used(inUse, 256)|);
    EntriesIn(l, inUse);
    SymbolsBounds(y, 0, Entries(l, inUse), |Used(inUse, 256)| + 1);
  }
}
