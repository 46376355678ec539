/** Whole streams: the parser taken block after block through any division of its input, and what a stream decodes to. */
module StreamDecoding {
  import opened Counting
  import opened Bits
  import opened BitIO
  import opened Rotations
  import opened InverseBwt
  import opened GenerateMtf
  import opened DecodeMachine
  import opened BlockFormat
  import opened FormatRoundTrip
  import opened SymbolRoundTrip
  import opened RunLength
  import opened CompressBlock
  import opened Compressor

  /** A parsed block: its header fields and its last column. */
  datatype Parsed = Parsed(h: Header, l: seq<byte>)

  /** Where the parser goes on after handing over a block. */
  function Onward(st: State): (st': State)
    requires Sane(st)
    ensures Sane(st')
  {
    if st.BlockDone? then BlockHeader(st.h.level, 0) else st
  }

  /** The parser over all the bits: every block on the way, the state it ends in and the bits left. */
  datatype Passage = Passage(blocks: seq<Parsed>, st: State, bits: seq<bool>)

  ghost function Through(st: State, bits: seq<bool>): (p: Passage)
    requires Sane(st) && !st.BlockDone?
    ensures Sane(p.st) && !p.st.BlockDone?
    decreases |bits|
  {
    var e := Exec(st, bits);
    if e.st.BlockDone? then
      ExecShrinks(st, bits);
      var p := Through(Onward(e.st), e.bits);
      Passage([Parsed(e.st.h, e.st.l)] + p.blocks, p.st, p.bits)
    else Passage([], e.st, e.bits)
  }

  lemma {:induction false} ExecShrinks(st: State, bits: seq<bool>)
    requires Sane(st)
    ensures |Exec(st, bits).bits| <= |bits|
    ensures Exec(st, bits).st != st ==> |Exec(st, bits).bits| < |bits|
    decreases |bits|
  {
    if !Halted(st) && |bits| >= Need(st) {
      hide Need, Advance, Sane;
      ExecShrinks(Advance(st, Value(bits[..Need(st)])), bits[Need(st)..]);
    }
  }

  /** A passage interrupted at any point and continued gives the same blocks, the same end and the same rest. */
  lemma {:induction false} ThroughResumes(st: State, a: seq<bool>, c: seq<bool>)
    requires Sane(st) && !st.BlockDone?
    ensures var p := Through(st, a); var q := Through(p.st, p.bits + c);
      Through(st, a + c) == Passage(p.blocks + q.blocks, q.st, q.bits)
    decreases |a|
  {
    hide Sane, Exec;
    var e := Exec(st, a);
    ExecResumes(st, a, c);
    if e.st.BlockDone? {
      ExecShrinks(st, a);
      ExecStops(e.st, e.bits + c);
      ThroughResumes(Onward(e.st), e.bits, c);
      var p := Through(Onward(e.st), e.bits);
      var q := Through(p.st, p.bits + c);
      assert Through(st, a).blocks == [Parsed(e.st.h, e.st.l)] + p.blocks;
      Assoc([Parsed(e.st.h, e.st.l)], p.blocks, q.blocks);
    } else {
      ThroughAgain(st, a + c, e.st, e.bits + c);
      assert [] + Through(e.st, e.bits + c).blocks == Through(e.st, e.bits + c).blocks;
    }
  }

  lemma ThroughAgain(st: State, bits: seq<bool>, st': State, bits': seq<bool>)
    requires Sane(st) && Sane(st') && !st.BlockDone? && !st'.BlockDone? && Exec(st, bits) == Exec(st', bits')
    ensures Through(st, bits) == Through(st', bits')
  {
    hide Exec, Sane;
  }

  // ---------- the blocks of a compressed stream ----------

  ghost function ParsedOf(r: BlockRec, level: int): Parsed {
    Parsed(Header(level, r.crc, false, r.orig), r.l)
  }

  ghost function ParsedAll(rs: seq<BlockRec>, level: int): (ps: seq<Parsed>)
    ensures |ps| == |rs| && forall i :: 0 <= i < |rs| ==> ps[i] == ParsedOf(rs[i], level)
  {
    seq(|rs|, i requires 0 <= i < |rs| => ParsedOf(rs[i], level))
  }

  lemma DrivesOnward(st: State, a: seq<bool>, st': State, rest: seq<bool>)
    requires Drives(st, a, st') && Sane(st) && Sane(st') && !st.BlockDone?
    ensures Exec(st, a + rest) == Exec(st', rest)
    ensures !st'.BlockDone? ==> Through(st, a + rest) == Through(st', rest)
    ensures st'.BlockDone? && a != [] ==>
      var p := Through(Onward(st'), rest); Through(st, a + rest) == Passage([Parsed(st'.h, st'.l)] + p.blocks, p.st, p.bits)
  {
    hide Sane;
    ExecResumes(st, a, rest);
    assert [] + rest == rest;
    if !st'.BlockDone? {
      ThroughAgain(st, a + rest, st', rest);
    } else {
      ExecStops(st', rest);
    }
  }

  lemma HeadParses(level: int, rest: seq<bool>)
    requires 1 <= level <= 9
    ensures Through(Magic(0), StreamHead(level) + rest) == Through(BlockHeader(level, 0), rest)
  {
    HeadDrives0(level);
    hide Drives, StreamHead;
    DrivesOnward(Magic(0), StreamHead(level), BlockHeader(level, 0), rest);
  }

  lemma HeadDrives0(level: int)
    requires 1 <= level <= 9
    ensures Drives(Magic(0), StreamHead(level), BlockHeader(level, 0))
  {
    hide Drives, ToBits, Exec;
    var m := STREAM_MAGIC + [HDR_0 + level];
    BytesFour(m);
    HeadReads(level);
    FourReads(Magic(0), m[0], Magic(1), m[1], Magic(2), m[2], Magic(3), m[3], BlockHeader(level, 0));
  }

  lemma HeadReads(level: int)
    requires 1 <= level <= 9
    ensures Reads(Magic(0), STREAM_MAGIC[0], Magic(1)) && Reads(Magic(1), STREAM_MAGIC[1], Magic(2))
    ensures Reads(Magic(2), STREAM_MAGIC[2], Magic(3)) && Reads(Magic(3), HDR_0 + level, BlockHeader(level, 0))
  {
  }

  lemma BytesFour(m: seq<int>)
    requires |m| == 4
    ensures Bytes(m) == ToBits(m[0], 8) + ToBits(m[1], 8) + ToBits(m[2], 8) + ToBits(m[3], 8)
  {
    hide ToBits;
    assert m[1..][1..] == m[2..] && m[2..][1..] == m[3..] && m[3..][1..] == [];
    assert Bytes(m[3..]) == ToBits(m[3], 8) + [] == ToBits(m[3], 8);
    assert Bytes(m[2..]) == ToBits(m[2], 8) + Bytes(m[3..]);
    assert Bytes(m[1..]) == ToBits(m[1], 8) + Bytes(m[2..]);
    assert Bytes(m) == ToBits(m[0], 8) + Bytes(m[1..]);
  }

  lemma TailParses(level: int, crc: int, rest: seq<bool>)
    requires 0 <= crc < WORD
    ensures Through(BlockHeader(level, 0), StreamTail(crc) + rest) == Passage([], State.StreamEnd(crc), rest)
  {
    TailDrives(level, crc);
    hide Drives, StreamTail;
    DrivesOnward(BlockHeader(level, 0), StreamTail(crc), State.StreamEnd(crc), rest);
    ExecStops(State.StreamEnd(crc), rest);
  }

  lemma TailDrives(level: int, crc: int)
    requires 0 <= crc < WORD
    ensures Drives(BlockHeader(level, 0), StreamTail(crc), State.StreamEnd(crc))
  {
    FirstEndByte(level);
    hide Drives, ToBits, Exec;
    EndMagic(level, 1);
    ReadsJoin(BlockHeader(level, 0), END_MAGIC[0], EndHeader(level, 1), Bytes(END_MAGIC[1..]), CombinedCrc(0, 0));
    assert Bytes(END_MAGIC) == ToBits(END_MAGIC[0], 8) + Bytes(END_MAGIC[1..]);
    EndCrcBytes(crc);
    DrivesJoin(BlockHeader(level, 0), Bytes(END_MAGIC), CombinedCrc(0, 0), ToBits(crc, 32), State.StreamEnd(crc));
  }

  lemma FirstEndByte(level: int)
    ensures Reads(BlockHeader(level, 0), END_MAGIC[0], EndHeader(level, 1))
  {
  }

  /** The last block of a list. */
  lemma LastRec(rs: seq<BlockRec>, level: int, c: Crc)
    requires GoodRecs(rs, level, c) && rs != []
    ensures var init, r := rs[..|rs| - 1], rs[|rs| - 1];
      && GoodRecs(init, level, c) && GoodRec(r, level)
      && UsedMarks(r.l, r.inUse) && r.l != [] && GoodBlock(r.inUse, r.plan, ColumnSymbols(r.l, r.inUse))
      && RecsBits(rs, level, c) == RecsBits(init, level, c) + RecBits(r)
      && ParsedAll(rs, level) == ParsedAll(init, level) + [ParsedOf(r, level)]
      && RecsData(rs) == RecsData(init) + r.data
  {
    var init, r := rs[..|rs| - 1], rs[|rs| - 1];
    hide GoodRecs, GoodRec, RecBits, UsedMarks, GoodBlock, ColumnSymbols, ParsedAll, ParsedOf, Drives;
    LastGood(rs, level, c);
    RecReady(r, level);
    LastParsed(rs, level);
  }

  lemma LastGood(rs: seq<BlockRec>, level: int, c: Crc)
    requires GoodRecs(rs, level, c) && rs != []
    ensures GoodRecs(rs[..|rs| - 1], level, c) && GoodRec(rs[|rs| - 1], level)
  {
    hide GoodRec, Fold;
  }

  lemma LastParsed(rs: seq<BlockRec>, level: int)
    requires rs != []
    ensures ParsedAll(rs, level) == ParsedAll(rs[..|rs| - 1], level) + [ParsedOf(rs[|rs| - 1], level)]
  {
    hide ParsedOf;
  }

  lemma {:induction false} BlocksParse(rs: seq<BlockRec>, level: int, c: Crc, rest: seq<bool>)
    requires GoodRecs(rs, level, c)
    ensures var p := Through(BlockHeader(level, 0), rest);
      Through(BlockHeader(level, 0), RecsBits(rs, level, c) + rest) == Passage(ParsedAll(rs, level) + p.blocks, p.st, p.bits)
    decreases |rs|
  {
    var start := BlockHeader(level, 0);
    if rs == [] {
      hide Through, GoodRec;
      assert [] + rest == rest;
      assert ParsedAll([], level) + Through(start, rest).blocks == Through(start, rest).blocks;
    } else {
      var init, r := rs[..|rs| - 1], rs[|rs| - 1];
      hide *;
      LastRec(rs, level, c);
      BlockThenRest(r, level, rest);
      Assoc(RecsBits(init, level, c), RecBits(r), rest);
      BlocksParse(init, level, c, RecBits(r) + rest);
      Assoc(ParsedAll(init, level), [ParsedOf(r, level)], Through(start, rest).blocks);
    }
  }

  lemma BlockThenRest(r: BlockRec, level: int, rest: seq<bool>)
    requires GoodRec(r, level)
    ensures UsedMarks(r.l, r.inUse) && r.l != [] && GoodBlock(r.inUse, r.plan, ColumnSymbols(r.l, r.inUse))
    ensures var start := BlockHeader(level, 0); var p := Through(start, rest);
      Through(start, RecBits(r) + rest) == Passage([ParsedOf(r, level)] + p.blocks, p.st, p.bits)
  {
    RecReady(r, level);
    hide GoodRec, RecBits, Drives, Exec, Through, UsedMarks, GoodBlock, ColumnSymbols;
    DrivesOnward(BlockHeader(level, 0), RecBits(r), BlockDone(Header(level, r.crc, false, r.orig), r.l), rest);
  }

  lemma RecReady(r: BlockRec, level: int)
    requires GoodRec(r, level)
    ensures UsedMarks(r.l, r.inUse) && r.l != [] && GoodBlock(r.inUse, r.plan, ColumnSymbols(r.l, r.inUse)) && RecBits(r) != []
    ensures Drives(BlockHeader(level, 0), RecBits(r), BlockDone(Header(level, r.crc, false, r.orig), r.l))
  {
    StableExists(r.l);
    RecDecodes(r, level, StableOf(r.l));
    assert |ToBits(r.crc, 32)| == 32;
    hide SymbolBits, TableBits, SelectorBits, MapBits, ToBits, ColumnSymbols, GoodBlock, UsedMarks, Drives;
    assert |HeadBits(r.crc, r.orig)| >= 32;
  }

  /** The data of a parsed block. */
  ghost function BlockData(p: Parsed): Expanded {
    if 0 <= p.h.origPtr < |p.l| then
      StableExists(p.l);
      Expand(Walk(p.l, StableOf(p.l), p.h.origPtr, |p.l|))
    else Damaged
  }

  ghost function AllData(ps: seq<Parsed>): Expanded {
    if ps == [] then Data([])
    else
      var a, c := AllData(ps[..|ps| - 1]), BlockData(ps[|ps| - 1]);
      if a.Data? && c.Data? then Data(a.out + c.out) else Damaged
  }

  lemma {:induction false} RecsDecode(rs: seq<BlockRec>, level: int, c: Crc)
    requires GoodRecs(rs, level, c)
    ensures AllData(ParsedAll(rs, level)) == Data(RecsData(rs))
    decreases |rs|
  {
    if rs == [] {
      hide GoodRec;
    } else {
      var init, r := rs[..|rs| - 1], rs[|rs| - 1];
      hide GoodRecs, GoodRec, RecBits, RecsBits, UsedMarks, GoodBlock, ColumnSymbols, BlockData, ParsedAll, RecsData;
      LastRec(rs, level, c);
      RecsDecode(init, level, c);
      RecData(r, level);
      assert (ParsedAll(init, level) + [ParsedOf(r, level)])[..|rs| - 1] == ParsedAll(init, level);
    }
  }

  lemma RecData(r: BlockRec, level: int)
    requires GoodRec(r, level)
    ensures BlockData(ParsedOf(r, level)) == Data(r.data)
  {
    RecReady(r, level);
    StableExists(r.l);
    RecDecodes(r, level, StableOf(r.l));
    hide UsedMarks, GoodBlock, ColumnSymbols, SortedAs, Expand, StableOf, StableOrder, Walk, Drives, RecBits;
  }

  /**
   * The round trip.  Whatever blocks the compressor made, the parser goes through the stream block by block to its
   * end, the blocks decode to exactly the data that went in, and what is left is the padding.
   */
  lemma StreamDecodes(rs: seq<BlockRec>, level: int, c: Crc, crc: int, pad: nat)
    requires 1 <= level <= 9 && GoodRecs(rs, level, c) && 0 <= crc < WORD
    ensures Through(Magic(0), StreamBits(rs, level, c) + StreamTail(crc) + Zeros(pad))
         == Passage(ParsedAll(rs, level), State.StreamEnd(crc), Zeros(pad))
    ensures AllData(ParsedAll(rs, level)) == Data(RecsData(rs))
  {
    hide GoodRecs, StreamHead, StreamTail, RecsBits, Through, Exec;
    var head, body, tail := StreamHead(level), RecsBits(rs, level, c), StreamTail(crc) + Zeros(pad);
    Assoc(StreamBits(rs, level, c), StreamTail(crc), Zeros(pad));
    Assoc(head, body, tail);
    HeadParses(level, body + tail);
    BlocksParse(rs, level, c, tail);
    TailParses(level, crc, Zeros(pad));
    assert ParsedAll(rs, level) + [] == ParsedAll(rs, level);
    RecsDecode(rs, level, c);
  }
}
