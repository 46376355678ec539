/** The parser, fed with the bits of a block, arrives at the block: section by section. */
module FormatRoundTrip {
  import opened Bits
  import opened BitIO
  import opened GenerateMtf
  import opened DecodeMachine
  import opened BlockFormat

  /** Fed with exactly these bits, the parser goes from st to st'. */
  ghost predicate Drives(st: State, bits: seq<bool>, st': State) {
    Sane(st) && Sane(st') && Exec(st, bits) == Paused(st', [])
  }

  lemma DrivesNothing(st: State)
    requires Sane(st)
    ensures Drives(st, [], st)
  {
  }

  lemma DrivesJoin(st: State, a: seq<bool>, mid: State, c: seq<bool>, st': State)
    requires Drives(st, a, mid) && Drives(mid, c, st')
    ensures Drives(st, a + c, st')
  {
    hide Sane, Exec;
    ExecResumes(st, a, c);
    assert [] + c == c;
  }

  lemma DrivesField(st: State, n: nat, v: int)
    requires Sane(st) && !Halted(st) && n == Need(st) && 0 <= v < Pow2(n)
    ensures Drives(st, ToBits(v, n), Advance(st, v))
  {
    hide Sane, Need, Advance, ToBits;
    ExecField(st, v, []);
    assert ToBits(v, n) + [] == ToBits(v, n);
    DrivesNothing(Advance(st, v));
  }

  lemma DrivesBit(st: State, bit: bool)
    requires Sane(st) && !Halted(st) && Need(st) == 1
    ensures Drives(st, [bit], Advance(st, if bit then 1 else 0))
  {
    hide Sane, Need, Advance;
    var v := if bit then 1 else 0;
    assert Pow2(1) == 2 * Pow2(0) == 2;
    assert ToBits(v, 1) == ToBits(v / 2, 0) + [v % 2 == 1] == [bit];
    DrivesField(st, 1, v);
  }

  lemma DrivesByte(st: State, v: int, rest: seq<bool>, st': State)
    requires Sane(st) && !Halted(st) && Need(st) == 8 && 0 <= v < 256 && Drives(Advance(st, v), rest, st')
    ensures Drives(st, ToBits(v, 8) + rest, st')
  {
    hide Sane, Need, Advance, Drives, ToBits;
    Word32();
    DrivesField(st, 8, v);
    DrivesJoin(st, ToBits(v, 8), Advance(st, v), rest, st');
  }

  // ---------- header ----------

  /** The four bytes of a word come back as the word. */
  lemma FourBytes(u: int)
    requires 0 <= u < WORD
    ensures var a, b, c, d := u / 0x100_0000 % 256, u / 0x1_0000 % 256, u / 0x100 % 256, u % 256;
      ((a * 256 + b) * 256 + c) * 256 + d == u
  {
  }

  /** st reads the byte v and becomes st'. */
  ghost predicate Reads(st: State, v: int, st': State) {
    Sane(st) && !Halted(st) && Need(st) == 8 && 0 <= v < 256 && Advance(st, v) == st'
  }

  lemma ReadsJoin(st: State, v: int, mid: State, rest: seq<bool>, st': State)
    requires Reads(st, v, mid) && Drives(mid, rest, st')
    ensures Drives(st, ToBits(v, 8) + rest, st')
  {
    DrivesByte(st, v, rest, st');
  }

  lemma {:induction false} BlockMagic(level: int, k: nat)
    requires k <= 5
    ensures Drives(BlockHeader(level, k), Bytes(BLOCK_MAGIC[k..]), BlockCrc(level, 0, 0))
    decreases 6 - k
  {
    hide Drives, ToBits;
    var m := BLOCK_MAGIC[k..];
    assert m[0] == BLOCK_MAGIC[k] && m[1..] == BLOCK_MAGIC[k + 1..];
    var next := if k < 5 then BlockHeader(level, k + 1) else BlockCrc(level, 0, 0);
    BlockMagicByte(level, k);
    if k < 5 { BlockMagic(level, k + 1); } else { DrivesNothing(next); }
    ReadsJoin(BlockHeader(level, k), BLOCK_MAGIC[k], next, Bytes(m[1..]), BlockCrc(level, 0, 0));
  }

  lemma BlockMagicByte(level: int, k: nat)
    requires k <= 5
    ensures Reads(BlockHeader(level, k), BLOCK_MAGIC[k], if k < 5 then BlockHeader(level, k + 1) else BlockCrc(level, 0, 0))
  {
  }

  lemma {:induction false} EndMagic(level: int, k: nat)
    requires 1 <= k <= 5
    ensures Drives(EndHeader(level, k), Bytes(END_MAGIC[k..]), CombinedCrc(0, 0))
    decreases 6 - k
  {
    hide Drives, ToBits;
    var m := END_MAGIC[k..];
    assert m[0] == END_MAGIC[k] && m[1..] == END_MAGIC[k + 1..];
    var next := if k < 5 then EndHeader(level, k + 1) else CombinedCrc(0, 0);
    EndMagicByte(level, k);
    if k < 5 { EndMagic(level, k + 1); } else { DrivesNothing(next); }
    ReadsJoin(EndHeader(level, k), END_MAGIC[k], next, Bytes(m[1..]), CombinedCrc(0, 0));
  }

  lemma EndMagicByte(level: int, k: nat)
    requires 1 <= k <= 5
    ensures Reads(EndHeader(level, k), END_MAGIC[k], if k < 5 then EndHeader(level, k + 1) else CombinedCrc(0, 0))
  {
  }

  lemma ThreeReads(s0: State, a: int, s1: State, b: int, s2: State, c: int, s3: State)
    requires Reads(s0, a, s1) && Reads(s1, b, s2) && Reads(s2, c, s3) && Sane(s3)
    ensures Drives(s0, ToBits(a, 8) + ToBits(b, 8) + ToBits(c, 8), s3)
  {
    hide *;
    DrivesNothing(s3);
    ReadsJoin(s2, c, s3, [], s3);
    ReadsJoin(s1, b, s2, ToBits(c, 8) + [], s3);
    ReadsJoin(s0, a, s1, ToBits(b, 8) + (ToBits(c, 8) + []), s3);
    assert ToBits(a, 8) + (ToBits(b, 8) + (ToBits(c, 8) + [])) == ToBits(a, 8) + ToBits(b, 8) + ToBits(c, 8);
  }

  lemma FourReads(s0: State, a: int, s1: State, b: int, s2: State, c: int, s3: State, d: int, s4: State)
    requires Reads(s0, a, s1) && Reads(s1, b, s2) && Reads(s2, c, s3) && Reads(s3, d, s4) && Sane(s4)
    ensures Drives(s0, ToBits(a, 8) + ToBits(b, 8) + ToBits(c, 8) + ToBits(d, 8), s4)
  {
    ReadsSane(s3, d, s4);
    hide *;
    ThreeReads(s0, a, s1, b, s2, c, s3);
    DrivesNothing(s4);
    ReadsJoin(s3, d, s4, [], s4);
    assert ToBits(d, 8) + [] == ToBits(d, 8);
    DrivesJoin(s0, ToBits(a, 8) + ToBits(b, 8) + ToBits(c, 8), s3, ToBits(d, 8), s4);
  }

  lemma ReadsSane(st: State, v: int, st': State)
    requires Reads(st, v, st')
    ensures Sane(st)
  {
  }

  lemma CrcReads(level: int, a: int, b: int, c: int, d: int)
    requires 0 <= a < 256 && 0 <= b < 256 && 0 <= c < 256 && 0 <= d < 256
    ensures Drives(BlockCrc(level, 0, 0), ToBits(a, 8) + ToBits(b, 8) + ToBits(c, 8) + ToBits(d, 8),
                   RandBit(level, ((a * 256 + b) * 256 + c) * 256 + d))
  {
    hide ToBits, Drives;
    FourReads(BlockCrc(level, 0, 0), a, BlockCrc(level, 1, a), b, BlockCrc(level, 2, a * 256 + b), c,
              BlockCrc(level, 3, (a * 256 + b) * 256 + c), d, RandBit(level, ((a * 256 + b) * 256 + c) * 256 + d));
  }

  lemma CrcBytes(level: int, crc: int)
    requires 0 <= crc < WORD
    ensures Drives(BlockCrc(level, 0, 0), ToBits(crc, 32), RandBit(level, crc))
  {
    hide Drives, ToBits;
    FourBytes(crc);
    QuarterBits(crc);
    CrcReads(level, crc / 0x100_0000 % 256, crc / 0x1_0000 % 256, crc / 0x100 % 256, crc % 256);
  }

  lemma EndCrcReads(a: int, b: int, c: int, d: int)
    requires 0 <= a < 256 && 0 <= b < 256 && 0 <= c < 256 && 0 <= d < 256
    ensures Drives(CombinedCrc(0, 0), ToBits(a, 8) + ToBits(b, 8) + ToBits(c, 8) + ToBits(d, 8),
                   StreamEnd(((a * 256 + b) * 256 + c) * 256 + d))
  {
    hide ToBits, Drives;
    FourReads(CombinedCrc(0, 0), a, CombinedCrc(1, a), b, CombinedCrc(2, a * 256 + b), c,
              CombinedCrc(3, (a * 256 + b) * 256 + c), d, StreamEnd(((a * 256 + b) * 256 + c) * 256 + d));
  }

  lemma EndCrcBytes(crc: int)
    requires 0 <= crc < WORD
    ensures Drives(CombinedCrc(0, 0), ToBits(crc, 32), StreamEnd(crc))
  {
    hide Drives, ToBits;
    FourBytes(crc);
    QuarterBits(crc);
    EndCrcReads(crc / 0x100_0000 % 256, crc / 0x1_0000 % 256, crc / 0x100 % 256, crc % 256);
  }

  lemma ThreeBytes(u: int)
    requires 0 <= u < 0x100_0000
    ensures ToBits(u, 24) == ToBits(u / 0x1_0000, 8) + ToBits(u / 0x100 % 256, 8) + ToBits(u % 256, 8)
    ensures ((u / 0x1_0000) * 256 + u / 0x100 % 256) * 256 + u % 256 == u
  {
    Word32();
    hide ToBits, Pow2;
    BitsSplit(u, 16, 8);
    BitsSplit(u / 0x100, 8, 8);
    BitsMod(u, 8, 8);
    BitsMod(u / 0x100, 8, 8);
    assert u / 0x100 / 0x100 == u / 0x1_0000;
  }

  lemma OrigReads(level: int, crc: int, randomised: bool, a: int, b: int, c: int)
    requires 0 <= a < 256 && 0 <= b < 256 && 0 <= c < 256 && (a * 256 + b) * 256 + c <= 10 + 100000 * level
    ensures Drives(OrigPtr(level, crc, randomised, 0, 0), ToBits(a, 8) + ToBits(b, 8) + ToBits(c, 8),
                   Mapping16(Header(level, crc, randomised, (a * 256 + b) * 256 + c), []))
  {
    hide ToBits, Drives;
    ThreeReads(OrigPtr(level, crc, randomised, 0, 0), a, OrigPtr(level, crc, randomised, 1, a), b,
               OrigPtr(level, crc, randomised, 2, a * 256 + b), c, Mapping16(Header(level, crc, randomised, (a * 256 + b) * 256 + c), []));
  }

  lemma OrigBytes(level: int, crc: int, randomised: bool, orig: int)
    requires 0 <= orig < 0x100_0000 && orig <= 10 + 100000 * level
    ensures Drives(OrigPtr(level, crc, randomised, 0, 0), ToBits(orig, 24), Mapping16(Header(level, crc, randomised, orig), []))
  {
    hide Drives, ToBits;
    ThreeBytes(orig);
    OrigReads(level, crc, randomised, orig / 0x1_0000, orig / 0x100 % 256, orig % 256);
  }

  lemma HeadDrives(level: int, crc: int, orig: int)
    requires 0 <= crc < WORD && 0 <= orig < 0x100_0000 && orig <= 10 + 100000 * level
    ensures Drives(BlockHeader(level, 0), HeadBits(crc, orig), Mapping16(Header(level, crc, false, orig), []))
  {
    hide Drives, Bytes;
    BlockMagic(level, 0);
    assert BLOCK_MAGIC[0..] == BLOCK_MAGIC;
    CrcBytes(level, crc);
    DrivesBit(RandBit(level, crc), false);
    assert ToBits(0, 1) == ToBits(0, 0) + [false] == [false];
    OrigBytes(level, crc, false, orig);
    var s0 := BlockHeader(level, 0);
    DrivesJoin(s0, Bytes(BLOCK_MAGIC), BlockCrc(level, 0, 0), ToBits(crc, 32), RandBit(level, crc));
    DrivesJoin(s0, Bytes(BLOCK_MAGIC) + ToBits(crc, 32), RandBit(level, crc), ToBits(0, 1), OrigPtr(level, crc, false, 0, 0));
    DrivesJoin(s0, Bytes(BLOCK_MAGIC) + ToBits(crc, 32) + ToBits(0, 1), OrigPtr(level, crc, false, 0, 0), ToBits(orig, 24),
               Mapping16(Header(level, crc, false, orig), []));
  }

  // ---------- mapping ----------

  lemma {:induction false} GroupsDrive(h: Header, used16: seq<bool>, k: nat)
    requires |used16| == 16 && k < 16
    ensures Drives(Mapping16(h, used16[..k]), used16[k..], AfterMapping(h, used16, []))
    decreases 16 - k
  {
    hide Drives, AfterMapping;
    DrivesBit(Mapping16(h, used16[..k]), used16[k]);
    assert used16[..k] + [used16[k]] == used16[..k + 1] && used16[k..] == [used16[k]] + used16[k + 1..];
    if k < 15 {
      GroupsDrive(h, used16, k + 1);
      DrivesJoin(Mapping16(h, used16[..k]), [used16[k]], Mapping16(h, used16[..k + 1]), used16[k + 1..], AfterMapping(h, used16, []));
    } else {
      assert used16[..16] == used16 && used16[16..] == [] && [used16[k]] + [] == [used16[k]];
    }
  }

  /** A group table covers the bytes in use; groups it leaves out have none. */
  ghost predicate Covers(used16: seq<bool>, inUse: seq<bool>) {
    |used16| == 16 && |inUse| == 256 && forall k :: 0 <= k < 256 && inUse[k] ==> used16[k / 16]
  }

  lemma {:induction false} MapDrives(h: Header, used16: seq<bool>, inUse: seq<bool>, k: nat)
    requires GoodMap(inUse) && Covers(used16, inUse) && k <= 256
    ensures Drives(AfterMapping(h, used16, inUse[..k]), MapFrom(used16, inUse, k), GroupCount(h, inUse))
    decreases 256 - k
  {
    hide Drives, Used, AfterMapping;
    if k == 256 {
      MapEnd(h, used16, inUse);
    } else {
      MapDrives(h, used16, inUse, k + 1);
      MapNext(h, used16, inUse, k);
      var piece := if used16[k / 16] then [inUse[k]] else [];
      DrivesJoin(AfterMapping(h, used16, inUse[..k]), piece, AfterMapping(h, used16, inUse[..k + 1]), MapFrom(used16, inUse, k + 1), GroupCount(h, inUse));
      assert [] + MapFrom(used16, inUse, k + 1) == MapFrom(used16, inUse, k + 1);
    }
  }

  lemma MapEnd(h: Header, used16: seq<bool>, inUse: seq<bool>)
    requires GoodMap(inUse) && |used16| == 16
    ensures inUse[..256] == inUse && AfterMapping(h, used16, inUse) == GroupCount(h, inUse)
    ensures Drives(AfterMapping(h, used16, inUse), [], GroupCount(h, inUse))
  {
    hide Used, Drives;
    DrivesNothing(GroupCount(h, inUse));
  }

  lemma MapNext(h: Header, used16: seq<bool>, inUse: seq<bool>, k: nat)
    requires Covers(used16, inUse) && k < 256
    ensures Drives(AfterMapping(h, used16, inUse[..k]), if used16[k / 16] then [inUse[k]] else [], AfterMapping(h, used16, inUse[..k + 1]))
  {
    hide Drives, Used, AfterMapping;
    assert inUse[..k] + [inUse[k]] == inUse[..k + 1];
    if used16[k / 16] {
      MapStep(h, used16, inUse[..k], inUse[k]);
    } else {
      MapSkip(h, used16, inUse[..k]);
      DrivesNothing(AfterMapping(h, used16, inUse[..k + 1]));
    }
  }

  /** A byte of a group left out has no bit and is not in use. */
  lemma MapSkip(h: Header, used16: seq<bool>, marks: seq<bool>)
    requires |used16| == 16 && |marks| < 256 && !used16[|marks| / 16]
    ensures AfterMapping(h, used16, marks) == AfterMapping(h, used16, marks + [false])
  {
    hide Used;
  }

  lemma MapStep(h: Header, used16: seq<bool>, marks: seq<bool>, bit: bool)
    requires |used16| == 16 && |marks| < 256 && used16[|marks| / 16]
    ensures AfterMapping(h, used16, marks) == Mapping(h, used16, marks)
    ensures Drives(AfterMapping(h, used16, marks), [bit], AfterMapping(h, used16, marks + [bit]))
  {
    hide Drives, Used;
    assert Settle(used16, marks) == marks;
    DrivesBit(Mapping(h, used16, marks), bit);
  }

  lemma MapCovered(inUse: seq<bool>)
    requires |inUse| == 256
    ensures Covers(Groups(inUse), inUse)
  {
    forall k | 0 <= k < 256 && inUse[k] ensures Groups(inUse)[k / 16] {
      assert 16 * (k / 16) <= k < 16 * (k / 16) + 16;
    }
  }

  /** Any group table that covers the bytes in use will do. */
  lemma MarksDrive(h: Header, used16: seq<bool>, inUse: seq<bool>)
    requires GoodMap(inUse) && Covers(used16, inUse)
    ensures Drives(Mapping16(h, []), used16 + MapFrom(used16, inUse, 0), GroupCount(h, inUse))
  {
    hide Drives, AfterMapping;
    GroupsDrive(h, used16, 0);
    assert used16[..0] == [] && used16[0..] == used16 && inUse[..0] == [];
    MapDrives(h, used16, inUse, 0);
    DrivesJoin(Mapping16(h, []), used16, AfterMapping(h, used16, []), MapFrom(used16, inUse, 0), GroupCount(h, inUse));
  }

  lemma MappingDrives(h: Header, inUse: seq<bool>)
    requires GoodMap(inUse)
    ensures Drives(Mapping16(h, []), MapBits(inUse), GroupCount(h, inUse))
  {
    hide Drives;
    MapCovered(inUse);
    MarksDrive(h, Groups(inUse), inUse);
  }
}
