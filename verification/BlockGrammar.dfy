/** The blocks a decoder has to accept, described by what their bits say and not by how they are read. */
module BlockGrammar {
  import opened Bits
  import opened BitIO
  import opened Rotations
  import opened Counting
  import opened CanonicalCodes
  import opened MoveToFront
  import opened GenerateMtf
  import opened DecodeMachine
  import opened BlockFormat
  import opened FormatRoundTrip
  import opened TableRoundTrip
  import opened SymbolRoundTrip

  // ---------- code words ----------

  /**
   * The code of sym has as many digits as its length, and none of its beginnings is as small as a shorter code or
   * one before it.  In a prefix code this is true of every symbol; a decoder also takes lengths that are none.
   */
  ghost predicate Findable(len: seq<int>, sym: int) {
    && 0 <= sym < |len| && 1 <= len[sym] && CodeOf(len, sym) < Pow2(len[sym])
    && forall n :: 0 <= n < len[sym] ==> Value(Word(len, sym)[..n]) >= First(len, n) + Occ(len, |len|, n)
  }

  /** There are no codes shorter than the shortest. */
  lemma {:induction false} NothingShort(len: seq<int>, n: nat)
    ensures n <= Least(len) ==> First(len, n) == 0
    ensures n < Least(len) ==> Occ(len, |len|, n) == 0
    decreases n
  {
    if n > 0 { NothingShort(len, n - 1); }
    if n < Least(len) { OccNone(len, |len|, n); }
  }

  lemma {:induction false} OccNone(len: seq<int>, m: nat, n: int)
    requires m <= |len| && forall i :: 0 <= i < m ==> len[i] != n
    ensures Occ(len, m, n) == 0
    decreases m
  {
    if m > 0 { OccNone(len, m - 1, n); }
  }

  /** The symbol found at a rank has that rank. */
  lemma SymbolRank(len: seq<int>, r: int)
    requires 0 <= r < |len|
    ensures 0 <= SymbolAt(len, r, 0) < |len| && Rank(len, SymbolAt(len, r, 0)) == r
  {
    hide Rank, SymbolAt;
    RankHit(len, r);
    var i :| 0 <= i < |len| && Rank(len, i) == r;
    RankFound(len, i, 0);
  }

  /** Ranks from Below(n) on, as many as there are codes of length n, are those of that length. */
  lemma RankLength(len: seq<int>, sym: int, n: int)
    requires 0 <= sym < |len| && Below(len, |len|, n) <= Rank(len, sym) < Below(len, |len|, n) + Occ(len, |len|, n)
    ensures len[sym] == n
  {
    var k := len[sym];
    OccMono(len, sym, |len|, k);
    BelowNext(len, |len|, k);
    BelowNext(len, |len|, n);
    if k < n { BelowMono(len, |len|, k + 1, n); }
    if k > n { BelowMono(len, |len|, n + 1, k); }
  }

  /** Where the decoding loop can stop, and what the tables hold there. */
  lemma StopLength(len: seq<int>, alpha: int, w: seq<bool>, sym: int)
    requires GoodLengths(len, alpha) && Decides(len, w, sym)
    ensures Least(len) <= |w| <= Greatest(len)
    ensures First(len, |w|) <= Value(w) < First(len, |w|) + Occ(len, |len|, |w|)
  {
    var n := |w|;
    NotBeyond(len, |w|, Value(w));
    NothingShort(len, n);
    if n > Least(len) {
      StopNotBefore(len, w, sym, n - 1);
      NextFirst(len, w);
    }
    hide First, Occ, Below, SymbolAt, Least, Greatest, Value;
  }

  /** Beyond the longest code no window is decided on. */
  lemma NotBeyond(len: seq<int>, n: nat, v: int)
    requires len != [] && v >= 0
    ensures n > Greatest(len) && v <= LimitAt(len, n) ==> v - BaseAt(len, n) < 0
  {
    if n > Greatest(len) {
      assert Below(len, |len|, n) >= 1 by { assert len[|len| - 1] < n; }
    }
  }

  lemma NextFirst(len: seq<int>, w: seq<bool>)
    requires w != [] && Value(w[..|w| - 1]) >= First(len, |w| - 1) + Occ(len, |len|, |w| - 1)
    ensures Value(w) >= First(len, |w|)
  {
    hide Occ;
  }

  /** Whatever the lengths, the loop decides only on the code word of its symbol. */
  lemma DecidesWord(len: seq<int>, alpha: int, w: seq<bool>, sym: int)
    requires GoodLengths(len, alpha) && Decides(len, w, sym)
    ensures Findable(len, sym) && len[sym] == |w| && w == Word(len, sym)
  {
    var n, v := |w|, Value(w);
    StopLength(len, alpha, w, sym);
    StopRank(len, w, sym);
    ValueBound(w);
    BitsOfValue(w);
    forall k | 0 <= k < n ensures Value(w[..k]) >= First(len, k) + Occ(len, |len|, k) {
      NothingShort(len, k);
      StopNotBefore(len, w, sym, k);
    }
  }

  lemma StopRank(len: seq<int>, w: seq<bool>, sym: int)
    requires Decides(len, w, sym) && |w| <= Greatest(len)
    requires First(len, |w|) <= Value(w) < First(len, |w|) + Occ(len, |len|, |w|)
    ensures len[sym] == |w| && CodeOf(len, sym) == Value(w)
  {
    hide SymbolAt, First, Below, Occ, Least, Greatest, Value;
    var n := |w|;
    SymbolRank(len, Value(w) - BaseAt(len, n));
    assert Rank(len, sym) == Value(w) - First(len, n) + Below(len, |len|, n);
    RankLength(len, sym, n);
    assert Rank(len, sym) == Below(len, |len|, n) + Occ(len, sym, n);
  }

  lemma StopNotBefore(len: seq<int>, w: seq<bool>, sym: int, k: nat)
    requires Decides(len, w, sym) && |w| <= Greatest(len) && k < |w|
    ensures Least(len) <= k ==> Value(w[..k]) >= First(len, k) + Occ(len, |len|, k)
  {
    hide BaseAt, SymbolAt, First, Occ, Value;
  }

  lemma WordDecides(len: seq<int>, alpha: int, sym: int)
    requires GoodLengths(len, alpha) && Findable(len, sym)
    ensures Decides(len, Word(len, sym), sym)
  {
    assert 0 <= sym < |len| && 1 <= len[sym] <= 20;
    RankFound(len, sym, 0);
    LengthBounds(len, sym);
    hide *;
    LeastGood(len, |len|);
    FindableLast(len, sym);
    FindableFirst(len, sym);
    DecidesIf(len, Word(len, sym), sym);
  }

  lemma LengthBounds(len: seq<int>, sym: int)
    requires 0 <= sym < |len|
    ensures Least(len) <= len[sym] <= Greatest(len)
  {
  }

  lemma DecidesIf(len: seq<int>, w: seq<bool>, sym: int)
    requires 1 <= Least(len) <= |w| <= 20 && 0 <= sym < |len|
    requires forall n :: 0 <= n && Least(len) <= n < |w| ==> Value(w[..n]) > LimitAt(len, n)
    requires Value(w) <= LimitAt(len, |w|) && Value(w) - BaseAt(len, |w|) == Rank(len, sym)
    requires SymbolAt(len, Rank(len, sym), 0) == sym
    ensures Decides(len, w, sym)
  {
    hide Least, LimitAt, BaseAt, SymbolAt, Value, Rank;
  }

  /** At its length the code is among the codes of the table, at the rank of the symbol. */
  lemma FindableLast(len: seq<int>, sym: int)
    requires Findable(len, sym)
    ensures var v, n := Value(Word(len, sym)), len[sym]; v <= LimitAt(len, n) && v - BaseAt(len, n) == Rank(len, sym)
  {
    ValueOfBits(CodeOf(len, sym), len[sym]);
    OccMono(len, sym, |len|, len[sym]);
    hide First, Occ, Below, Value, ToBits, Pow2, Least, Greatest;
    assert Least(len) <= len[sym] <= Greatest(len);
  }

  lemma FindableFirst(len: seq<int>, sym: int)
    requires Findable(len, sym) && Least(len) >= 0
    ensures forall n :: 0 <= n && Least(len) <= n < len[sym] ==> Value(Word(len, sym)[..n]) > LimitAt(len, n)
  {
    hide First, Occ, Value, ToBits, Pow2, Least, Greatest, CodeOf;
    assert len[sym] <= Greatest(len);
  }

  /** In a prefix code every symbol can be found. */
  lemma DecodableFindable(len: seq<int>, alpha: int, sym: int)
    requires GoodLengths(len, alpha) && Decodable(len, 20) && 0 <= sym < alpha
    ensures Findable(len, sym)
  {
    WordInTables(len, alpha, sym);
    DecidesWord(len, alpha, Word(len, sym), sym);
  }

  /** From place x on, symbols that the tables of their groups have findable words for. */
  ghost predicate Named(b: Body, syms: seq<int>, x: nat)
    decreases |syms|
  {
    syms == [] || (
      && x / GROUP_SIZE < |b.selector| && 0 <= b.selector[x / GROUP_SIZE] < |b.lens|
      && Findable(b.lens[b.selector[x / GROUP_SIZE]], syms[0]) && Named(b, syms[1..], x + 1))
  }

  ghost function WordsFrom(b: Body, syms: seq<int>, x: nat): seq<bool>
    requires Named(b, syms, x)
    decreases |syms|
  {
    if syms == [] then [] else Word(b.lens[b.selector[x / GROUP_SIZE]], syms[0]) + WordsFrom(b, syms[1..], x + 1)
  }

  lemma {:induction false} NamedAt(b: Body, syms: seq<int>, x: nat, i: nat)
    requires Named(b, syms, x) && i < |syms|
    ensures (x + i) / GROUP_SIZE < |b.selector| && 0 <= b.selector[(x + i) / GROUP_SIZE] < |b.lens|
    ensures Findable(b.lens[b.selector[(x + i) / GROUP_SIZE]], syms[i])
    decreases i
  {
    hide Findable;
    if i > 0 { NamedAt(b, syms[1..], x + 1, i - 1); }
  }

  lemma {:induction false} WordsAre(b: Body, syms: seq<int>, x: nat)
    requires GoodSymbols(PlanOf(b), syms) && x <= |syms| && Named(b, syms[x..], x)
    ensures SymbolBits(PlanOf(b), syms, x) == WordsFrom(b, syms[x..], x)
    decreases |syms| - x
  {
    hide Findable, Word, GoodSymbols;
    if x < |syms| {
      assert syms[x..][0] == syms[x] && syms[x..][1..] == syms[x + 1..];
      WordsAre(b, syms, x + 1);
    }
  }

  // ---------- blocks ----------

  /**
   * A block as it may be sent: what the tables say, how the bytes in use and the code lengths are spelled out, the
   * symbols, and the last column they stand for.
   */
  datatype Laid = Laid(b: Body, used16: seq<bool>, walks: seq<Descent>, syms: seq<int>, l: seq<byte>)

  ghost predicate LegalHead(h: Header, level: int) {
    h.level == level && 0 <= h.crc < WORD && 0 <= h.origPtr < 0x100_0000 && h.origPtr <= 10 + 100000 * level
  }

  /** Two to six tables of lengths from 1 to 20, and at least one selector, each naming a table. */
  ghost predicate LegalTables(x: Laid) {
    && GoodBody(x.b, |x.b.lens|) && Covers(x.used16, x.b.inUse) && |x.b.selector| < 32768 && LegalWalks(x.walks, x.b.lens)
  }

  /** Symbols of the alphabet, each with a word of its group's table, that end with the end mark and decode to the column. */
  ghost predicate LegalSymbols(b: Body, syms: seq<int>, l: seq<byte>)
    requires GoodBody(b, |b.lens|)
  {
    && GoodSymbols(PlanOf(b), syms) && SymbolRange(syms, AlphaSize(b.inUse) - 1)
    && (forall x :: 0 <= x < |syms| ==> Findable(b.lens[b.selector[x / GROUP_SIZE]], syms[x]))
    && (forall k :: 0 <= k < |syms| - 1 ==> syms[k] != AlphaSize(b.inUse) - 1) && syms != []
    && AlphaSize(b.inUse) <= 258
    && FeedAll(Runs(Numbers(256), -1, 1, []), syms, AlphaSize(b.inUse) - 1, Unmap(b.inUse), 100000 * b.h.level) == Ended(l)
  }

  ghost predicate Legal(x: Laid, level: int) {
    LegalHead(x.b.h, level) && LegalTables(x) && LegalSymbols(x.b, x.syms, x.l) && 0 <= x.b.h.origPtr < |x.l|
  }

  ghost function HeaderBits(h: Header): seq<bool> {
    Bytes(BLOCK_MAGIC) + ToBits(h.crc, 32) + [h.randomised] + ToBits(h.origPtr, 24)
  }

  ghost function LaidBits(x: Laid): seq<bool>
    requires LegalTables(x) && GoodSymbols(PlanOf(x.b), x.syms)
  {
    HeaderBits(x.b.h) + (x.used16 + MapFrom(x.used16, x.b.inUse, 0)) + SelectorBits(PlanOf(x.b)) + WalksBits(x.walks)
      + SymbolBits(PlanOf(x.b), x.syms, 0)
  }

  /** The bits are those of the legal block x, followed by rest. */
  ghost predicate Spells(x: Laid, level: int, bits: seq<bool>, rest: seq<bool>) {
    Legal(x, level) && bits == LaidBits(x) + rest
  }

  // ---------- every legal block is accepted ----------

  lemma HeaderDrives(h: Header, level: int)
    requires LegalHead(h, level)
    ensures Drives(BlockHeader(level, 0), HeaderBits(h), Mapping16(h, []))
  {
    hide Drives, Bytes, ToBits;
    var crc, r, orig, s0 := h.crc, h.randomised, h.origPtr, BlockHeader(level, 0);
    BlockMagic(level, 0);
    assert BLOCK_MAGIC[0..] == BLOCK_MAGIC;
    CrcBytes(level, crc);
    DrivesBit(RandBit(level, crc), r);
    OrigBytes(level, crc, r, orig);
    DrivesJoin(s0, Bytes(BLOCK_MAGIC), BlockCrc(level, 0, 0), ToBits(crc, 32), RandBit(level, crc));
    DrivesJoin(s0, Bytes(BLOCK_MAGIC) + ToBits(crc, 32), RandBit(level, crc), [r], OrigPtr(level, crc, r, 0, 0));
    DrivesJoin(s0, Bytes(BLOCK_MAGIC) + ToBits(crc, 32) + [r], OrigPtr(level, crc, r, 0, 0), ToBits(orig, 24),
               Mapping16(Header(level, crc, r, orig), []));
  }

  lemma LegalReadable(b: Body, syms: seq<int>, l: seq<byte>)
    requires GoodBody(b, |b.lens|) && LegalSymbols(b, syms, l)
    ensures Readable(b, syms)
  {
    hide Used, Findable, Decides, Word, FeedAll;
    forall x | 0 <= x < |syms| ensures Decides(b.lens[b.selector[x / GROUP_SIZE]], Word(b.lens[b.selector[x / GROUP_SIZE]], syms[x]), syms[x]) {
      assert x / GROUP_SIZE < |PlanOf(b).sel|;
      WordDecides(b.lens[b.selector[x / GROUP_SIZE]], AlphaSize(b.inUse), syms[x]);
    }
  }

  lemma LegalSymbolsDrive(b: Body, syms: seq<int>, l: seq<byte>)
    requires GoodBody(b, |b.lens|) && LegalSymbols(b, syms, l) && 0 <= b.h.origPtr < |l|
    ensures Drives(Start(b), SymbolBits(PlanOf(b), syms, 0), BlockDone(b.h, l))
  {
    LegalReadable(b, syms, l);
    StartSymbol(b);
    hide Used, Findable, Decides, Word, FeedAll, Drives, SymbolBits, Readable, GoodSymbols;
    assert syms[0..] == syms;
    SymbolsDrive(b, syms, 0, Runs(Numbers(256), -1, 1, []), l);
  }

  lemma TableFacts(x: Laid)
    requires LegalTables(x)
    ensures GoodMap(x.b.inUse) && Covers(x.used16, x.b.inUse) && 2 <= |x.b.lens| <= 6 && 1 <= |x.b.selector| < 32768
    ensures |x.used16| == 16 && |x.b.inUse| == 256 && AllBelow(x.b.selector, |x.b.lens|) && LegalWalks(x.walks, x.b.lens)
    ensures GoodBody(x.b, |x.b.lens|)
  {
    hide Used, LegalWalks, GoodLengths;
  }

  /** The tables of a block take the parser from the group table to its first symbol. */
  lemma LegalTablesDrive(x: Laid)
    requires LegalTables(x)
    ensures GoodBody(x.b, |x.b.lens|)
    ensures Drives(Mapping16(x.b.h, []),
                   (x.used16 + MapFrom(x.used16, x.b.inUse, 0)) + SelectorBits(PlanOf(x.b)) + WalksBits(x.walks), Start(x.b))
  {
    TableFacts(x);
    hide *;
    var h, inUse := x.b.h, x.b.inUse;
    var b0 := Body(h, inUse, x.b.selector, []);
    assert b0.(lens := x.b.lens) == x.b && PlanOf(x.b).lens == x.b.lens && PlanOf(x.b).sel == x.b.selector by { PlanFields(x.b); }
    MarksDrive(h, x.used16, inUse);
    SelectorsDrive(h, inUse, PlanOf(x.b));
    WalksDrive(b0, x.b.lens, x.walks, 0);
    assert x.walks[0..] == x.walks && x.b.lens[..0] == [];
    var a, c, d := x.used16 + MapFrom(x.used16, inUse, 0), SelectorBits(PlanOf(x.b)), WalksBits(x.walks);
    DrivesJoin(Mapping16(h, []), a, GroupCount(h, inUse), c, FirstLength(b0, |x.b.lens|));
    DrivesJoin(Mapping16(h, []), a + c, FirstLength(b0, |x.b.lens|), d, Start(x.b));
  }

  lemma PlanFields(b: Body)
    ensures PlanOf(b).lens == b.lens && PlanOf(b).sel == b.selector
  {
  }

  /** The parser goes through the bits of a legal block to the block they describe. */
  lemma LegalDrives(x: Laid, level: int)
    requires Legal(x, level)
    ensures LegalTables(x) && GoodSymbols(PlanOf(x.b), x.syms) && Drives(BlockHeader(level, 0), LaidBits(x), BlockDone(x.b.h, x.l))
  {
    LegalTablesDrive(x);
    LegalSymbolsDrive(x.b, x.syms, x.l);
    HeaderDrives(x.b.h, level);
    assert GoodSymbols(PlanOf(x.b), x.syms);
    hide *;
    var a, d := (x.used16 + MapFrom(x.used16, x.b.inUse, 0)) + SelectorBits(PlanOf(x.b)) + WalksBits(x.walks), SymbolBits(PlanOf(x.b), x.syms, 0);
    DrivesJoin(BlockHeader(level, 0), HeaderBits(x.b.h), Mapping16(x.b.h, []), a, Start(x.b));
    DrivesJoin(BlockHeader(level, 0), HeaderBits(x.b.h) + a, Start(x.b), d, BlockDone(x.b.h, x.l));
    LaidParts(x);
  }

  lemma LaidParts(x: Laid)
    requires LegalTables(x) && GoodSymbols(PlanOf(x.b), x.syms)
    ensures |x.used16| == 16 && |x.b.inUse| == 256 && 1 <= |x.b.lens| && AllBelow(x.b.selector, |x.b.lens|)
    ensures LaidBits(x) == HeaderBits(x.b.h)
              + ((x.used16 + MapFrom(x.used16, x.b.inUse, 0)) + SelectorBits(PlanOf(x.b)) + WalksBits(x.walks))
              + SymbolBits(PlanOf(x.b), x.syms, 0)
  {
    TableFacts(x);
    FiveSections(HeaderBits(x.b.h), x.used16 + MapFrom(x.used16, x.b.inUse, 0), SelectorBits(PlanOf(x.b)), WalksBits(x.walks),
                 SymbolBits(PlanOf(x.b), x.syms, 0));
    hide HeaderBits, MapFrom, SelectorBits, WalksBits, SymbolBits, GoodSymbols, LegalTables, GoodMap, Covers, GoodBody;
  }

  lemma FiveSections(a: seq<bool>, b: seq<bool>, c: seq<bool>, d: seq<bool>, e: seq<bool>)
    ensures a + b + c + d + e == a + (b + c + d) + e
  {
    Assoc(a, b, c);
    Assoc(a, b + c, d);
  }
}
