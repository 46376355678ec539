/** How long the compressed form of a block can get: it always fits in what the block leaves of the work area. */
module OutputRoom {
  import opened Bits
  import opened Rotations
  import opened MainCompare
  import opened CanonicalCodes
  import opened MoveToFront
  import opened GenerateMtf
  import opened DecodeMachine
  import opened BlockFormat
  import opened SymbolRoundTrip
  import opened CompressBlock

  /** Bits of a block of n bytes, at most. */
  function MostBits(n: nat): nat { 20 * n + 6 * ((n + 50) / 50) + 60817 }

  /** Bytes of the work area behind a block of n bytes, where its compressed form goes. */
  function Room(level: int, n: int): int { 4 * (100000 * level + OVERSHOOT) - n }

  lemma {:induction false} UnariesLength(js: seq<int>, g: nat)
    requires forall i :: 0 <= i < |js| ==> 0 <= js[i] < g
    ensures |Unaries(js)| <= g * |js|
    decreases |js|
  {
    if js != [] {
      UnaryLength(js[0]);
      UnariesLength(js[1..], g);
      hide Unary;
      assert g * |js| == g + g * |js[1..]|;
    }
  }

  lemma {:induction false} UnaryLength(j: nat)
    ensures |Unary(j)| == j + 1
  {
    if j > 0 { UnaryLength(j - 1); }
  }

  lemma {:induction false} DeltaLength(curr: int, want: int)
    ensures |Delta(curr, want)| == 2 * (if curr < want then want - curr else curr - want) + 1
    decreases if curr < want then want - curr else curr - want
  {
    if curr < want { DeltaLength(curr + 1, want); } else if curr > want { DeltaLength(curr - 1, want); }
  }

  lemma {:induction false} DeltasLength(curr: int, len: seq<int>)
    requires 1 <= curr <= 20 && forall i :: 0 <= i < |len| ==> 1 <= len[i] <= 20
    ensures |Deltas(curr, len)| <= 39 * |len|
    decreases |len|
  {
    if len != [] {
      DeltaLength(curr, len[0]);
      hide Delta;
      DeltasLength(len[0], len[1..]);
    }
  }

  lemma {:induction false} TablesLength(lens: seq<seq<int>>, alpha: int)
    requires 0 < alpha <= 258 && forall t :: 0 <= t < |lens| ==> GoodLengths(lens[t], alpha) && lens[t] != []
    ensures |TableBits(lens)| <= 10067 * |lens|
    decreases |lens|
  {
    if lens != [] {
      DeltasLength(lens[0][0], lens[0]);
      hide Deltas, ToBits;
      TablesLength(lens[1..], alpha);
    }
  }

  lemma {:induction false} SymbolsLength(p: Plan, syms: seq<int>, x: nat, alpha: int)
    requires GoodSymbols(p, syms) && x <= |syms| && forall t :: 0 <= t < |p.lens| ==> GoodLengths(p.lens[t], alpha)
    ensures |SymbolBits(p, syms, x)| <= 20 * (|syms| - x)
    decreases |syms| - x
  {
    if x < |syms| {
      assert GoodLengths(p.lens[p.sel[x / GROUP_SIZE]], alpha);
      SymbolsLength(p, syms, x + 1, alpha);
    }
  }

  lemma {:induction false} MapLength(used16: seq<bool>, inUse: seq<bool>, k: nat)
    requires |used16| == 16 && |inUse| == 256 && k <= 256
    ensures |MapFrom(used16, inUse, k)| <= 256 - k
    decreases 256 - k
  {
    if k < 256 {
      MapLength(used16, inUse, k + 1);
    }
  }

  lemma {:induction false} BytesLength(m: seq<int>)
    ensures |Bytes(m)| == 8 * |m|
    decreases |m|
  {
    if m != [] { BytesLength(m[1..]); }
  }

  lemma HeadLength(crc: int, orig: int)
    ensures |HeadBits(crc, orig)| == 105
  {
    BytesLength(BLOCK_MAGIC);
    hide Bytes, ToBits;
  }

  lemma SelectorsLength(p: Plan)
    requires 1 <= |p.lens| <= 6 && forall i :: 0 <= i < |p.sel| ==> 0 <= p.sel[i] < |p.lens|
    ensures |SelectorBits(p)| <= 18 + 6 * |p.sel|
  {
    SelectorsIn(p);
    hide Select, Unaries, ToBits, Numbers;
    UnariesLength(Select(Numbers(|p.lens|), p.sel), 6);
  }

  lemma BlockLength(crc: int, orig: int, inUse: seq<bool>, p: Plan, syms: seq<int>, n: nat)
    requires GoodBlock(inUse, p, syms) && |syms| <= n + 1
    ensures |BlockBits(crc, orig, inUse, p, syms)| <= MostBits(n)
  {
    hide HeadBits, MapFrom, SelectorBits, TableBits, SymbolBits, Groups, GoodBlock, AlphaSize, MostBits, GoodLengths, GoodSymbols;
    PlanFacts(inUse, p, syms);
    var alpha := AlphaSize(inUse);
    HeadLength(crc, orig);
    MapLength(Groups(inUse), inUse, 0);
    SelectorsLength(p);
    TablesLength(p.lens, alpha);
    SymbolsLength(p, syms, 0, alpha);
    PartsAdd(n, |syms|, |p.sel|, |p.lens|);
  }

  lemma PartsAdd(n: nat, syms: nat, sel: nat, lens: nat)
    requires syms <= n + 1 && sel == (syms + 49) / 50 && lens <= 6
    ensures 105 + 272 + (18 + 6 * sel) + 10067 * lens + 20 * syms <= MostBits(n)
  {
    assert sel <= (n + 50) / 50;
  }

  lemma PlanFacts(inUse: seq<bool>, p: Plan, syms: seq<int>)
    requires GoodBlock(inUse, p, syms)
    ensures |inUse| == 256 && 3 <= AlphaSize(inUse) <= 258 && 2 <= |p.lens| <= 6 && |p.sel| == (|syms| + 49) / 50
    ensures forall t :: 0 <= t < |p.lens| ==> GoodLengths(p.lens[t], AlphaSize(inUse)) && p.lens[t] != []
    ensures GoodSymbols(p, syms) && forall i :: 0 <= i < |p.sel| ==> 0 <= p.sel[i] < |p.lens|
  {
    hide Used, Decodable;
  }

  /** The selectors the decoder has room for: BZ_MAX_SELECTORS. */
  const SELECTOR_ROOM := 2 + 900000 / GROUP_SIZE

  /** A block's bits, at most; and no block has more selectors than the decoder has room for. */
  lemma RecLength(r: BlockRec, level: int)
    requires GoodRec(r, level)
    ensures |r.plan.sel| <= SELECTOR_ROOM
    ensures UsedMarks(r.l, r.inUse) && r.l != [] && GoodBlock(r.inUse, r.plan, ColumnSymbols(r.l, r.inUse))
    ensures |RecBits(r)| <= MostBits(|r.b|)
  {
    hide Used, Decodable, BlockBits, GoodBlock, Symbols, Entries, UsedMarks;
    SymbolCount(r.l, r.inUse);
    PlanFacts(r.inUse, r.plan, ColumnSymbols(r.l, r.inUse));
    BlockLength(r.crc, r.orig, r.inUse, r.plan, ColumnSymbols(r.l, r.inUse), |r.b|);
  }

  /** One symbol for every column entry at most, and the end mark. */
  lemma SymbolCount(l: seq<byte>, inUse: seq<bool>)
    requires UsedMarks(l, inUse) && l != []
    ensures |ColumnSymbols(l, inUse)| <= |l| + 1
  {
    EntriesIn(l, inUse);
    hide Used;
    var y := Numbers(|Used(inUse, 256)|);
    SymbolsBounds(y, 0, Entries(l, inUse), |Used(inUse, 256)| + 1);
  }

  /** Header, trailer, left-over bits and padding included, the bytes fit behind the block. */
  lemma BytesFit(level: int, n: int, zbits: int, bits: int)
    requires 1 <= level <= 9 && 0 <= n <= 100000 * level && bits <= MostBits(n) + 160 && 8 * zbits <= bits
    ensures zbits <= Room(level, n)
  {
  }
}
