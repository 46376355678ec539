/** The abstract parser accepts exactly the blocks of the grammar: read backwards from an accepting run, section by section. */
module ParserExact {
  import opened Permutations
  import opened Bits
  import opened BitIO
  import opened Rotations
  import opened CanonicalCodes
  import opened MoveToFront
  import opened GenerateMtf
  import opened DecodeMachine
  import opened BlockFormat
  import opened FormatRoundTrip
  import opened TableRoundTrip
  import opened SymbolRoundTrip
  import opened BlockGrammar
  import opened StreamDecoding

  /** From st the parser gets through to a block or to the end of the stream. */
  ghost predicate Ends(st: State, bits: seq<bool>, e: Paused) {
    Sane(st) && Exec(st, bits) == e && (e.st.BlockDone? || e.st.StreamEnd?)
  }

  /** A run that gets through finds the bits that each state waits for. */
  lemma EndsStep(st: State, bits: seq<bool>, e: Paused) returns (v: int, rest: seq<bool>)
    requires Ends(st, bits, e) && !Halted(st)
    ensures Sane(st) && 0 <= v < Pow2(Need(st)) && bits == ToBits(v, Need(st)) + rest && Ends(Advance(st, v), rest, e)
  {
    hide Sane, Need, Advance, ToBits, Value, Pow2;
    ExecTurn(st, bits);
    var n := Need(st);
    assert |bits| >= n;
    v, rest := Value(bits[..n]), bits[n..];
    BitsOfValue(bits[..n]);
  }

  lemma EndsBit(st: State, bits: seq<bool>, e: Paused) returns (bit: bool, rest: seq<bool>)
    requires Ends(st, bits, e) && !Halted(st) && Need(st) == 1
    ensures bits == [bit] + rest && Ends(Advance(st, if bit then 1 else 0), rest, e)
  {
    hide Sane, Need, Advance, Ends;
    var v;
    v, rest := EndsStep(st, bits, e);
    assert Pow2(1) == 2 * Pow2(0) == 2;
    bit := v == 1;
    assert ToBits(v, 1) == ToBits(v / 2, 0) + [v % 2 == 1] == [bit];
  }

  lemma EndsByte(st: State, bits: seq<bool>, e: Paused) returns (v: int, rest: seq<bool>)
    requires Ends(st, bits, e) && !Halted(st) && Need(st) == 8
    ensures 0 <= v < 256 && bits == ToBits(v, 8) + rest && Ends(Advance(st, v), rest, e)
  {
    hide Sane, Need, Advance, ToBits, Ends;
    v, rest := EndsStep(st, bits, e);
    Word32();
  }

  /** An error state gets nowhere. */
  lemma NotFromError(st: State, bits: seq<bool>, e: Paused)
    requires Ends(st, bits, e)
    ensures !st.DataError? && !st.MagicError?
    ensures st.BlockDone? || st.StreamEnd? ==> e == Paused(st, bits)
  {
  }

  lemma EndsSane(st: State, bits: seq<bool>, e: Paused)
    requires Ends(st, bits, e)
    ensures Sane(st)
  {
  }

  // ---------- headers ----------

  lemma {:induction false} MagicEnds(level: int, k: nat, bits: seq<bool>, e: Paused) returns (rest: seq<bool>)
    requires 1 <= k <= 5 && Ends(BlockHeader(level, k), bits, e)
    ensures bits == Bytes(BLOCK_MAGIC[k..]) + rest && Ends(BlockCrc(level, 0, 0), rest, e)
    decreases 6 - k
  {
    hide Ends, ToBits;
    var v, tail := EndsByte(BlockHeader(level, k), bits, e);
    NotFromError(Advance(BlockHeader(level, k), v), tail, e);
    var m := BLOCK_MAGIC[k..];
    assert v == m[0] && m[1..] == BLOCK_MAGIC[k + 1..];
    if k < 5 {
      rest := MagicEnds(level, k + 1, tail, e);
    } else {
      rest := tail;
      assert m[1..] == [] && ToBits(v, 8) + [] == ToBits(v, 8);
    }
    Assoc(ToBits(v, 8), Bytes(m[1..]), rest);
  }

  lemma {:induction false} EndMagicEnds(level: int, k: nat, bits: seq<bool>, e: Paused) returns (rest: seq<bool>)
    requires 1 <= k <= 5 && Ends(EndHeader(level, k), bits, e)
    ensures bits == Bytes(END_MAGIC[k..]) + rest && Ends(CombinedCrc(0, 0), rest, e)
    decreases 6 - k
  {
    hide Ends, ToBits;
    var v, tail := EndsByte(EndHeader(level, k), bits, e);
    NotFromError(Advance(EndHeader(level, k), v), tail, e);
    var m := END_MAGIC[k..];
    assert v == m[0] && m[1..] == END_MAGIC[k + 1..];
    if k < 5 {
      rest := EndMagicEnds(level, k + 1, tail, e);
    } else {
      rest := tail;
      assert m[1..] == [] && ToBits(v, 8) + [] == ToBits(v, 8);
    }
    Assoc(ToBits(v, 8), Bytes(m[1..]), rest);
  }

  /** Four bytes make a word. */
  lemma WordOfBytes(a: int, b: int, c: int, d: int, rest: seq<bool>)
    requires 0 <= a < 256 && 0 <= b < 256 && 0 <= c < 256 && 0 <= d < 256
    ensures var u := ((a * 256 + b) * 256 + c) * 256 + d;
      0 <= u < WORD && ToBits(a, 8) + (ToBits(b, 8) + (ToBits(c, 8) + (ToBits(d, 8) + rest))) == ToBits(u, 32) + rest
  {
    hide ToBits;
    var t := (a * 256 + b) * 256 + c;
    ThreeOfBytes(a, b, c, ToBits(d, 8) + rest);
    LastOfBytes(t, d);
    Assoc(ToBits(t, 24), ToBits(d, 8), rest);
  }

  lemma LastOfBytes(t: int, d: int)
    requires 0 <= d < 256
    ensures ToBits(t * 256 + d, 32) == ToBits(t, 24) + ToBits(d, 8)
  {
    Word32();
    hide ToBits, Pow2;
    BitsJoin(t, d, 24, 8);
  }

  lemma ThreeOfBytes(a: int, b: int, c: int, rest: seq<bool>)
    requires 0 <= a < 256 && 0 <= b < 256 && 0 <= c < 256
    ensures var u := (a * 256 + b) * 256 + c;
      0 <= u < 0x100_0000 && ToBits(a, 8) + (ToBits(b, 8) + (ToBits(c, 8) + rest)) == ToBits(u, 24) + rest
  {
    Word32();
    hide ToBits, Pow2;
    BitsJoin(a, b, 8, 8);
    BitsJoin(a * 256 + b, c, 16, 8);
    var p, q, r := ToBits(a, 8), ToBits(b, 8), ToBits(c, 8);
    Assoc(p + q, r, rest);
    Assoc(p, q, r + rest);
  }

  lemma CrcEnds(level: int, bits: seq<bool>, e: Paused) returns (crc: int, rest: seq<bool>)
    requires Ends(BlockCrc(level, 0, 0), bits, e)
    ensures 0 <= crc < WORD && bits == ToBits(crc, 32) + rest && Ends(RandBit(level, crc), rest, e)
  {
    hide Ends, ToBits;
    var a, s := EndsByte(BlockCrc(level, 0, 0), bits, e);
    var b, t := EndsByte(BlockCrc(level, 1, a), s, e);
    var c, u := EndsByte(BlockCrc(level, 2, a * 256 + b), t, e);
    var d;
    d, rest := EndsByte(BlockCrc(level, 3, (a * 256 + b) * 256 + c), u, e);
    crc := ((a * 256 + b) * 256 + c) * 256 + d;
    WordOfBytes(a, b, c, d, rest);
  }

  lemma EndCrcEnds(bits: seq<bool>, e: Paused) returns (crc: int, rest: seq<bool>)
    requires Ends(CombinedCrc(0, 0), bits, e)
    ensures 0 <= crc < WORD && bits == ToBits(crc, 32) + rest && e == Paused(StreamEnd(crc), rest)
  {
    hide Ends, ToBits;
    var a, s := EndsByte(CombinedCrc(0, 0), bits, e);
    var b, t := EndsByte(CombinedCrc(1, a), s, e);
    var c, u := EndsByte(CombinedCrc(2, a * 256 + b), t, e);
    var d;
    d, rest := EndsByte(CombinedCrc(3, (a * 256 + b) * 256 + c), u, e);
    crc := ((a * 256 + b) * 256 + c) * 256 + d;
    NotFromError(StreamEnd(crc), rest, e);
    WordOfBytes(a, b, c, d, rest);
  }

  lemma OrigEnds(level: int, crc: int, randomised: bool, bits: seq<bool>, e: Paused) returns (orig: int, rest: seq<bool>)
    requires Ends(OrigPtr(level, crc, randomised, 0, 0), bits, e)
    ensures 0 <= orig < 0x100_0000 && orig <= 10 + 100000 * level
    ensures bits == ToBits(orig, 24) + rest && Ends(Mapping16(Header(level, crc, randomised, orig), []), rest, e)
  {
    hide Ends, ToBits;
    var a, s := EndsByte(OrigPtr(level, crc, randomised, 0, 0), bits, e);
    var b, t := EndsByte(OrigPtr(level, crc, randomised, 1, a), s, e);
    var c;
    c, rest := EndsByte(OrigPtr(level, crc, randomised, 2, a * 256 + b), t, e);
    orig := (a * 256 + b) * 256 + c;
    NotFromError(Advance(OrigPtr(level, crc, randomised, 2, a * 256 + b), c), rest, e);
    ThreeOfBytes(a, b, c, rest);
  }

  lemma RandEnds(level: int, crc: int, bits: seq<bool>, e: Paused) returns (r: bool, rest: seq<bool>)
    requires Ends(RandBit(level, crc), bits, e)
    ensures bits == [r] + rest && Ends(OrigPtr(level, crc, r, 0, 0), rest, e)
  {
    hide Ends;
    r, rest := EndsBit(RandBit(level, crc), bits, e);
  }

  /** Behind the stream header or a block comes the header of a block or the end of the stream. */
  lemma HeaderEnds(level: int, bits: seq<bool>, e: Paused) returns (more: bool, h: Header, rest: seq<bool>)
    requires Ends(BlockHeader(level, 0), bits, e)
    ensures more ==> LegalHead(h, level) && bits == HeaderBits(h) + rest && Ends(Mapping16(h, []), rest, e)
    ensures !more ==> 0 <= h.crc < WORD && bits == StreamTail(h.crc) + rest && e == Paused(StreamEnd(h.crc), rest)
  {
    hide Ends, ToBits, Bytes;
    var v, tail := EndsByte(BlockHeader(level, 0), bits, e);
    NotFromError(Advance(BlockHeader(level, 0), v), tail, e);
    FirstBytes();
    if v == END_MAGIC[0] {
      var t := EndMagicEnds(level, 1, tail, e);
      var crc;
      crc, rest := EndCrcEnds(t, e);
      more, h := false, Header(level, crc, false, 0);
      Assoc(ToBits(v, 8), Bytes(END_MAGIC[1..]), t);
      Assoc(Bytes(END_MAGIC), ToBits(crc, 32), rest);
    } else {
      var t := MagicEnds(level, 1, tail, e);
      var crc, s := CrcEnds(level, t, e);
      var r, u := RandEnds(level, crc, s, e);
      var orig;
      orig, rest := OrigEnds(level, crc, r, u, e);
      more, h := true, Header(level, crc, r, orig);
      Assoc(ToBits(v, 8), Bytes(BLOCK_MAGIC[1..]), t);
      FourSections(Bytes(BLOCK_MAGIC), ToBits(crc, 32), [r], ToBits(orig, 24), rest);
    }
  }

  lemma FirstBytes()
    ensures Bytes(BLOCK_MAGIC) == ToBits(BLOCK_MAGIC[0], 8) + Bytes(BLOCK_MAGIC[1..])
    ensures Bytes(END_MAGIC) == ToBits(END_MAGIC[0], 8) + Bytes(END_MAGIC[1..])
  {
  }

  lemma FourSections(a: seq<bool>, b: seq<bool>, c: seq<bool>, d: seq<bool>, rest: seq<bool>)
    ensures a + b + c + d + rest == a + (b + (c + (d + rest)))
  {
    Assoc(a + b + c, d, rest);
    Assoc(a + b, c, d + rest);
    Assoc(a, b, c + (d + rest));
  }

  // ---------- the bytes in use ----------

  lemma {:induction false} GroupsEnds(h: Header, pre: seq<bool>, bits: seq<bool>, e: Paused) returns (more: seq<bool>, rest: seq<bool>)
    requires |pre| < 16 && Ends(Mapping16(h, pre), bits, e)
    ensures |pre + more| == 16 && bits == more + rest && Ends(AfterMapping(h, pre + more, []), rest, e)
    decreases 16 - |pre|
  {
    hide Ends, AfterMapping;
    var bit, tail := EndsBit(Mapping16(h, pre), bits, e);
    if |pre| < 15 {
      more, rest := GroupsEnds(h, pre + [bit], tail, e);
      assert pre + [bit] + more == pre + ([bit] + more);
      Assoc([bit], more, rest);
      more := [bit] + more;
    } else {
      more, rest := [bit], tail;
    }
  }

  lemma {:induction false} MarksEnds(h: Header, used16: seq<bool>, marks: seq<bool>, bits: seq<bool>, e: Paused)
    returns (inUse: seq<bool>, rest: seq<bool>)
    requires |used16| == 16 && |marks| <= 256 && Ends(AfterMapping(h, used16, marks), bits, e)
    ensures marks <= inUse && GoodMap(inUse) && (forall k :: |marks| <= k < 256 && inUse[k] ==> used16[k / 16])
    ensures bits == MapFrom(used16, inUse, |marks|) + rest && Ends(GroupCount(h, inUse), rest, e)
    decreases 256 - |marks|
  {
    hide Ends, AfterMapping, Used;
    if |marks| == 256 {
      FullMap(h, used16, marks);
      NotFromError(AfterMapping(h, used16, marks), bits, e);
      inUse, rest := marks, bits;
      assert [] + rest == rest;
    } else if !used16[|marks| / 16] {
      MapSkip(h, used16, marks);
      inUse, rest := MarksEnds(h, used16, marks + [false], bits, e);
      assert inUse[|marks|] == (marks + [false])[|marks|];
    } else {
      MapStep(h, used16, marks, true);
      var bit, tail := EndsBit(Mapping(h, used16, marks), bits, e);
      MappingAdvance(h, used16, marks, bit);
      inUse, rest := MarksEnds(h, used16, marks + [bit], tail, e);
      assert inUse[|marks|] == (marks + [bit])[|marks|] == bit;
      Assoc([bit], MapFrom(used16, inUse, |marks| + 1), rest);
    }
  }

  lemma FullMap(h: Header, used16: seq<bool>, marks: seq<bool>)
    requires |used16| == 16 && |marks| == 256
    ensures AfterMapping(h, used16, marks) == if GoodMap(marks) then GroupCount(h, marks) else DataError
  {
    hide Used;
  }

  lemma MappingAdvance(h: Header, used16: seq<bool>, marks: seq<bool>, bit: bool)
    requires |used16| == 16 && |marks| < 256
    ensures Sane(Mapping(h, used16, marks))
    ensures Advance(Mapping(h, used16, marks), if bit then 1 else 0) == AfterMapping(h, used16, marks + [bit])
  {
    hide AfterMapping;
  }

  // ---------- selectors ----------

  /** Decoding and coding selectors are inverse to each other. */
  lemma {:induction false} SelectUnselect(pos: seq<int>, mtf: seq<int>)
    requires Injective(pos) && forall i :: 0 <= i < |mtf| ==> 0 <= mtf[i] < |pos|
    ensures AllIn(Unselect(pos, mtf), pos) && Select(pos, Unselect(pos, mtf)) == mtf
    decreases |mtf|
  {
    if mtf != [] {
      var k, pos' := mtf[0], Front(pos, mtf[0]);
      FrontMembers(pos, k);
      SelectUnselect(pos', mtf[1..]);
      var sel := Unselect(pos, mtf);
      assert sel[0] == pos[k] && sel[1..] == Unselect(pos', mtf[1..]);
      PosAt(pos, k);
    }
  }

  lemma PosAt(pos: seq<int>, k: int)
    requires Injective(pos) && 0 <= k < |pos|
    ensures pos[k] in pos && PosOf(pos, pos[k]) == k
  {
    var j := PosOf(pos, pos[k]);
  }

  lemma {:induction false} UnaryEnds(h: Header, inUse: seq<bool>, nGroups: int, nSelectors: int, mtf: seq<int>, j: int, bits: seq<bool>, e: Paused)
    returns (want: int, rest: seq<bool>)
    requires Ends(Selector(h, inUse, nGroups, nSelectors, mtf, j), bits, e)
    ensures GoodMap(inUse) && 2 <= nGroups <= 6 && |mtf| < nSelectors && AllBelow(mtf + [want], nGroups) && 0 <= j <= want < nGroups
    ensures bits == Unary(want - j) + rest && Ends(AfterSelector(h, inUse, nGroups, nSelectors, mtf + [want]), rest, e)
    decreases nGroups - j
  {
    hide Ends, AfterSelector, Used, Sane, GoodMap;
    var bit, tail := UnaryStep(h, inUse, nGroups, nSelectors, mtf, j, bits, e);
    if bit {
      want, rest := UnaryEnds(h, inUse, nGroups, nSelectors, mtf, j + 1, tail, e);
      Assoc([true], Unary(want - (j + 1)), rest);
    } else {
      want, rest := j, tail;
    }
  }

  lemma UnaryStep(h: Header, inUse: seq<bool>, nGroups: int, nSelectors: int, mtf: seq<int>, j: int, bits: seq<bool>, e: Paused)
    returns (bit: bool, tail: seq<bool>)
    requires Ends(Selector(h, inUse, nGroups, nSelectors, mtf, j), bits, e)
    ensures GoodMap(inUse) && 2 <= nGroups <= 6 && |mtf| < nSelectors && AllBelow(mtf + [j], nGroups) && 0 <= j < nGroups
    ensures bits == [bit] + tail
    ensures if bit then Ends(Selector(h, inUse, nGroups, nSelectors, mtf, j + 1), tail, e)
            else Ends(AfterSelector(h, inUse, nGroups, nSelectors, mtf + [j]), tail, e)
  {
    var st := Selector(h, inUse, nGroups, nSelectors, mtf, j);
    EndsSane(st, bits, e);
    UnaryFacts(h, inUse, nGroups, nSelectors, mtf, j);
    hide Ends, AfterSelector, Used, Sane, Advance, Need;
    bit, tail := EndsBit(st, bits, e);
    NotFromError(Advance(st, if bit then 1 else 0), tail, e);
  }

  lemma UnaryFacts(h: Header, inUse: seq<bool>, nGroups: int, nSelectors: int, mtf: seq<int>, j: int)
    requires Sane(Selector(h, inUse, nGroups, nSelectors, mtf, j))
    ensures GoodMap(inUse) && 2 <= nGroups <= 6 && |mtf| < nSelectors && AllBelow(mtf + [j], nGroups) && 0 <= j < nGroups
    ensures var st := Selector(h, inUse, nGroups, nSelectors, mtf, j);
      && Need(st) == 1 && Advance(st, 0) == AfterSelector(h, inUse, nGroups, nSelectors, mtf + [j])
      && Advance(st, 1) == if j + 1 >= nGroups then DataError else Selector(h, inUse, nGroups, nSelectors, mtf, j + 1)
  {
    hide Used, AfterSelector;
  }

  lemma {:induction false} UnariesEnds(h: Header, inUse: seq<bool>, nGroups: int, nSelectors: int, pre: seq<int>, bits: seq<bool>, e: Paused)
    returns (mtf: seq<int>, rest: seq<bool>)
    requires Ends(Selector(h, inUse, nGroups, nSelectors, pre, 0), bits, e)
    ensures GoodMap(inUse) && 2 <= nGroups <= 6 && |pre + mtf| == nSelectors && mtf != []
    ensures AllBelow(mtf, nGroups) && AllBelow(pre + mtf, nGroups)
    ensures bits == Unaries(mtf) + rest && Ends(AfterSelector(h, inUse, nGroups, nSelectors, pre + mtf), rest, e)
    decreases nSelectors - |pre|
  {
    hide Ends, Used, Unary;
    var want, tail := UnaryEnds(h, inUse, nGroups, nSelectors, pre, 0, bits, e);
    assert 0 <= want < nGroups && forall i :: 0 <= i < |pre| ==> pre[i] == (pre + [want])[i];
    if |pre| + 1 < nSelectors {
      var more;
      more, rest := UnariesEnds(h, inUse, nGroups, nSelectors, pre + [want], tail, e);
      mtf := [want] + more;
      assert pre + [want] + more == pre + mtf && mtf[1..] == more;
      Assoc(Unary(want), Unaries(more), rest);
    } else {
      mtf, rest := [want], tail;
      assert mtf[1..] == [] && Unary(want) + [] == Unary(want);
    }
  }

  lemma SelectorsEnds(h: Header, inUse: seq<bool>, bits: seq<bool>, e: Paused) returns (n: int, sel: seq<int>, rest: seq<bool>)
    requires Ends(GroupCount(h, inUse), bits, e)
    ensures GoodMap(inUse) && 2 <= n <= 6 && 1 <= |sel| < 32768 && AllBelow(sel, n) && AllIn(sel, Numbers(n)) && Injective(Numbers(n))
    ensures bits == ToBits(n, 3) + ToBits(|sel|, 15) + Unaries(Select(Numbers(n), sel)) + rest
    ensures Ends(FirstLength(Body(h, inUse, sel, []), n), rest, e)
  {
    hide Ends, Used, Select, Unaries, Unselect, ToBits, Pow2;
    SmallPowers();
    var s;
    n, s := EndsStep(GroupCount(h, inUse), bits, e);
    NotFromError(Advance(GroupCount(h, inUse), n), s, e);
    var k, t := EndsStep(SelectorCount(h, inUse, n), s, e);
    NotFromError(Advance(SelectorCount(h, inUse, n), k), t, e);
    var mtf;
    mtf, rest := UnariesEnds(h, inUse, n, k, [], t, e);
    assert [] + mtf == mtf;
    SelectUnselect(Numbers(n), mtf);
    sel := Unselect(Numbers(n), mtf);
    SelectedBelow(n, sel);
    assert AfterSelector(h, inUse, n, k, mtf) == FirstLength(Body(h, inUse, sel, []), n);
    Assoc(ToBits(n, 3) + ToBits(k, 15), Unaries(mtf), rest);
    Assoc(ToBits(n, 3), ToBits(k, 15), Unaries(mtf) + rest);
  }

  lemma SelectedBelow(n: int, sel: seq<int>)
    requires 0 <= n && AllIn(sel, Numbers(n))
    ensures AllBelow(sel, n)
  {
    forall i | 0 <= i < |sel| ensures 0 <= sel[i] < n {
      var v: int := sel[i];
      assert v in sel;
      assert v in Numbers(n);
    }
  }

  // ---------- code lengths ----------

  lemma LengthStates(b: Body, nGroups: int, cur: seq<int>, curr: int)
    requires Lengthy(b, nGroups, cur)
    ensures CheckLength(b, nGroups, cur, curr) == if 1 <= curr <= 20 then LengthMore(b, nGroups, cur, curr) else DataError
  {
    hide Used, GoodBody;
  }

  lemma LengthAdvance(b: Body, nGroups: int, cur: seq<int>, curr: int, bit: bool)
    requires Lengthy(b, nGroups, cur) && 1 <= curr <= 20
    ensures GoodLengths(cur + [curr], |cur| + 1)
    ensures var st := LengthMore(b, nGroups, cur, curr);
      Sane(st) && !Halted(st) && Need(st) == 1
      && Advance(st, if bit then 1 else 0) == if bit then LengthSign(b, nGroups, cur, curr) else AfterLength(b, nGroups, cur + [curr], curr)
    ensures var st := LengthSign(b, nGroups, cur, curr);
      Sane(st) && !Halted(st) && Need(st) == 1
      && Advance(st, if bit then 1 else 0) == CheckLength(b, nGroups, cur, OneStep(curr, bit))
  {
    hide Used, GoodBody, AfterLength, CheckLength;
  }

  lemma {:induction false} StepEnds(b: Body, nGroups: int, cur: seq<int>, curr: int, bits: seq<bool>, e: Paused)
    returns (signs: seq<bool>, rest: seq<bool>)
    requires Lengthy(b, nGroups, cur) && Ends(CheckLength(b, nGroups, cur, curr), bits, e)
    ensures InRange(curr, signs) && 1 <= Reached(curr, signs) <= 20 && GoodLengths(cur + [Reached(curr, signs)], |cur| + 1)
    ensures bits == StepBits(signs) + rest && Ends(AfterLength(b, nGroups, cur + [Reached(curr, signs)], Reached(curr, signs)), rest, e)
    decreases |bits|
  {
    hide Ends, AfterLength, CheckLength, Sane, Need, Advance, Used;
    LengthStates(b, nGroups, cur, curr);
    NotFromError(CheckLength(b, nGroups, cur, curr), bits, e);
    LengthAdvance(b, nGroups, cur, curr, true);
    var bit, tail := EndsBit(LengthMore(b, nGroups, cur, curr), bits, e);
    LengthAdvance(b, nGroups, cur, curr, bit);
    if !bit {
      signs, rest := [], tail;
    } else {
      var down, tail2 := EndsBit(LengthSign(b, nGroups, cur, curr), tail, e);
      LengthAdvance(b, nGroups, cur, curr, down);
      var more;
      more, rest := StepEnds(b, nGroups, cur, OneStep(curr, down), tail2, e);
      signs := [down] + more;
      assert signs[1..] == more && [true] + ([down] + tail2) == [true, down] + tail2;
      Assoc([true, down], StepBits(more), rest);
    }
  }

  lemma {:induction false} StepsEnds(b: Body, nGroups: int, cur: seq<int>, curr: int, bits: seq<bool>, e: Paused)
    returns (steps: seq<seq<bool>>, more: seq<int>, rest: seq<bool>)
    requires Lengthy(b, nGroups, cur) && Ends(CheckLength(b, nGroups, cur, curr), bits, e)
    ensures StepsGive(curr, steps, more) && more != [] && GoodLengths(cur + more, AlphaSize(b.inUse))
    ensures bits == StepsBits(steps) + rest && Ends(AfterLength(b, nGroups, cur + more, (cur + more)[|cur + more| - 1]), rest, e)
    decreases AlphaSize(b.inUse) - |cur|
  {
    hide Ends, CheckLength, Used, StepBits, InRange, Reached;
    var signs, tail := StepEnds(b, nGroups, cur, curr, bits, e);
    var r := Reached(curr, signs);
    if |cur| + 1 < AlphaSize(b.inUse) {
      var ss, ls;
      ss, ls, rest := StepsEnds(b, nGroups, cur + [r], r, tail, e);
      steps, more := [signs] + ss, [r] + ls;
      assert cur + [r] + ls == cur + more && steps[1..] == ss && more[1..] == ls;
      Assoc(StepBits(signs), StepsBits(ss), rest);
    } else {
      steps, more, rest := [signs], [r], tail;
      assert steps[1..] == [] && more[1..] == [] && StepBits(signs) + [] == StepBits(signs);
    }
  }

  lemma WalkEnds(b: Body, nGroups: int, bits: seq<bool>, e: Paused) returns (w: Descent, len: seq<int>, rest: seq<bool>)
    requires Ends(FirstLength(b, nGroups), bits, e)
    ensures GoodBody(b, nGroups) && |b.lens| < nGroups && len != [] && GoodLengths(len, AlphaSize(b.inUse)) && LegalWalk(w, len)
    ensures bits == WalkBits(w) + rest && Ends(AfterLength(b, nGroups, len, len[|len| - 1]), rest, e)
  {
    hide Ends, ToBits, Pow2, StepsGive, AfterLength, CheckLength, Used;
    SmallPowers();
    EndsSane(FirstLength(b, nGroups), bits, e);
    var v, tail := EndsStep(FirstLength(b, nGroups), bits, e);
    var steps;
    steps, len, rest := StepsEnds(b, nGroups, [], v, tail, e);
    assert [] + len == len;
    w := Descent(v, steps);
    Assoc(ToBits(v, 5), StepsBits(steps), rest);
  }

  lemma {:induction false} WalksEnds(b: Body, nGroups: int, bits: seq<bool>, e: Paused)
    returns (ws: seq<Descent>, lens: seq<seq<int>>, rest: seq<bool>)
    requires Ends(FirstLength(b, nGroups), bits, e)
    ensures GoodBody(b.(lens := b.lens + lens), nGroups) && |b.lens + lens| == nGroups && LegalWalks(ws, lens)
    ensures bits == WalksBits(ws) + rest && Ends(Start(b.(lens := b.lens + lens)), rest, e)
    decreases nGroups - |b.lens|
  {
    hide Ends, WalkBits, LegalWalk, Used, NextSymbol;
    var w, len, tail := WalkEnds(b, nGroups, bits, e);
    var b' := b.(lens := b.lens + [len]);
    assert GoodBody(b', nGroups);
    if |b'.lens| < nGroups {
      var ws', lens';
      ws', lens', rest := WalksEnds(b', nGroups, tail, e);
      ws, lens := [w] + ws', [len] + lens';
      assert b'.lens + lens' == b.lens + lens && ws[1..] == ws';
      assert b'.(lens := b'.lens + lens') == b.(lens := b.lens + lens);
      Assoc(WalkBits(w), WalksBits(ws'), rest);
    } else {
      ws, lens, rest := [w], [len], tail;
      assert ws[1..] == [] && WalkBits(w) + [] == WalkBits(w);
    }
  }

  // ---------- symbols ----------

  /** Nothing has been decided on yet. */
  ghost predicate Undecided(len: seq<int>, w: seq<bool>) {
    1 <= Least(len) <= |w| <= 21 && forall n :: 0 <= n && Least(len) <= n < |w| ==> Value(w[..n]) > LimitAt(len, n)
  }

  lemma UndecidedMore(len: seq<int>, w: seq<bool>, bit: bool)
    requires Undecided(len, w) && |w| <= 20 && Value(w) > LimitAt(len, |w|)
    ensures Undecided(len, w + [bit]) && Value(w + [bit]) == Value(w) * 2 + if bit then 1 else 0
  {
    hide LimitAt, Least;
    var u := w + [bit];
    assert u[..|w|] == w;
    forall n | 0 <= n && Least(len) <= n < |u| ensures Value(u[..n]) > LimitAt(len, n) {
      if n < |w| { assert u[..n] == w[..n]; }
    }
  }

  lemma TryCases(b: Body, groupNo: int, groupPos: int, runs: Runs, w: seq<bool>)
    requires InSymbols(b, groupNo, groupPos, runs) && Undecided(TableOf(b, groupNo), w)
    requires !TryCode(b, groupNo, groupPos, runs, |w|, Value(w)).DataError?
    ensures |w| <= 20
    ensures Value(w) > LimitAt(TableOf(b, groupNo), |w|) ==>
              TryCode(b, groupNo, groupPos, runs, |w|, Value(w)) == CodeMore(b, groupNo, groupPos, runs, |w| + 1, Value(w))
    ensures Value(w) <= LimitAt(TableOf(b, groupNo), |w|) ==>
              var len := TableOf(b, groupNo); var r := Value(w) - BaseAt(len, |w|);
              && 0 <= r < |len| && 0 <= SymbolAt(len, r, 0) < |len| == AlphaSize(b.inUse) && Decides(len, w, SymbolAt(len, r, 0))
              && TryCode(b, groupNo, groupPos, runs, |w|, Value(w)) == AfterSymbol(b, groupNo, groupPos, runs, SymbolAt(len, r, 0))
  {
    hide LimitAt, BaseAt, SymbolAt, Least, Value, AfterSymbol, Used;
  }

  lemma {:induction false} TryEnds(b: Body, groupNo: int, groupPos: int, runs: Runs, w: seq<bool>, bits: seq<bool>, e: Paused)
    returns (word: seq<bool>, sym: int, rest: seq<bool>)
    requires InSymbols(b, groupNo, groupPos, runs) && Undecided(TableOf(b, groupNo), w)
    requires Ends(TryCode(b, groupNo, groupPos, runs, |w|, Value(w)), bits, e)
    ensures Decides(TableOf(b, groupNo), word, sym) && 0 <= sym < AlphaSize(b.inUse)
    ensures w + bits == word + rest && Ends(AfterSymbol(b, groupNo, groupPos, runs, sym), rest, e)
    decreases 21 - |w|
  {
    hide Ends, TryCode, Decides, LimitAt, BaseAt, SymbolAt, Least, Value, AfterSymbol, Used, Sane, Need, Advance;
    var len := TableOf(b, groupNo);
    NotFromError(TryCode(b, groupNo, groupPos, runs, |w|, Value(w)), bits, e);
    TryCases(b, groupNo, groupPos, runs, w);
    if Value(w) <= LimitAt(len, |w|) {
      word, sym, rest := w, SymbolAt(len, Value(w) - BaseAt(len, |w|), 0), bits;
    } else {
      var st := CodeMore(b, groupNo, groupPos, runs, |w| + 1, Value(w));
      MoreFacts(b, groupNo, groupPos, runs, |w| + 1, Value(w), true);
      var bit, tail := EndsBit(st, bits, e);
      MoreFacts(b, groupNo, groupPos, runs, |w| + 1, Value(w), bit);
      UndecidedMore(len, w, bit);
      word, sym, rest := TryEnds(b, groupNo, groupPos, runs, w + [bit], tail, e);
      Assoc(w, [bit], tail);
    }
  }

  /** From the start of a code, the bits of one word and its symbol. */
  lemma WordEnds(b: Body, groupNo: int, groupPos: int, runs: Runs, bits: seq<bool>, e: Paused)
    returns (sym: int, rest: seq<bool>)
    requires InSymbols(b, groupNo, groupPos, runs) && Ends(CodeStart(b, groupNo, groupPos, runs), bits, e)
    ensures Findable(TableOf(b, groupNo), sym) && 0 <= sym < AlphaSize(b.inUse) == |TableOf(b, groupNo)| && TableOf(b, groupNo)[sym] >= 0
    ensures Word(TableOf(b, groupNo), sym) != []
    ensures bits == Word(TableOf(b, groupNo), sym) + rest && Ends(AfterSymbol(b, groupNo, groupPos, runs, sym), rest, e)
  {
    hide Ends, TryCode, Decides, LimitAt, BaseAt, SymbolAt, Least, Value, AfterSymbol, Used, Sane, Need, Advance, ToBits, Findable, Word, Pow2;
    var len := TableOf(b, groupNo);
    StartFacts(b, groupNo, groupPos, runs, 0);
    var v, tail := EndsStep(CodeStart(b, groupNo, groupPos, runs), bits, e);
    StartFacts(b, groupNo, groupPos, runs, v);
    ValueOfBits(v, Least(len));
    var w;
    w, sym, rest := TryEnds(b, groupNo, groupPos, runs, ToBits(v, Least(len)), tail, e);
    DecidesWord(len, AlphaSize(b.inUse), w, sym);
    WordThere(len, sym);
  }

  lemma WordThere(len: seq<int>, sym: int)
    requires Findable(len, sym)
    ensures 0 <= sym < |len| && len[sym] >= 0 && Word(len, sym) != []
  {
  }

  lemma FeedMore(runs: Runs, sym: int, more: seq<int>, eob: int, u: seq<byte>, most: int)
    requires |runs.mtf| == |u| == 256 && 0 <= sym <= eob <= 257 && SymbolRange(more, eob)
    ensures SymbolRange([sym] + more, eob)
    ensures Feed(runs, sym, eob, u, most).More? && |Feed(runs, sym, eob, u, most).d.mtf| == 256 ==>
              FeedAll(runs, [sym] + more, eob, u, most) == FeedAll(Feed(runs, sym, eob, u, most).d, more, eob, u, most)
    ensures !Feed(runs, sym, eob, u, most).More? ==> FeedAll(runs, [sym] + more, eob, u, most) == Feed(runs, sym, eob, u, most)
    ensures sym == eob && eob > 1 ==> !Feed(runs, sym, eob, u, most).More?
    ensures Feed(runs, sym, eob, u, most).Ended? && eob > 1 ==> sym == eob
  {
    FeedFirst(runs, sym, more, eob, u, most);
  }

  /** What a symbol does when the run gets through. */
  lemma SymbolCases(b: Body, x: nat, runs: Runs, sym: int)
    requires GoodBody(b, |b.lens|) && x / GROUP_SIZE < |b.selector| && |runs.mtf| == 256
    requires InSymbols(b, x / GROUP_SIZE, GROUP_SIZE - 1 - x % GROUP_SIZE, runs) && 0 <= sym < AlphaSize(b.inUse) <= 258 && |Unmap(b.inUse)| == 256
    requires !AfterSymbol(b, x / GROUP_SIZE, GROUP_SIZE - 1 - x % GROUP_SIZE, runs, sym).DataError?
    ensures var f := Feed(runs, sym, AlphaSize(b.inUse) - 1, Unmap(b.inUse), 100000 * b.h.level);
      var st := AfterSymbol(b, x / GROUP_SIZE, GROUP_SIZE - 1 - x % GROUP_SIZE, runs, sym);
      && (f.More? ==> |f.d.mtf| == 256 && (x + 1) / GROUP_SIZE < |b.selector| && st == SymbolState(b, x + 1, f.d))
      && (f.Ended? ==> 0 <= b.h.origPtr < |f.l| && st == BlockDone(b.h, f.l))
      && !f.BadRun?
  {
    FeedKeeps(runs, sym, AlphaSize(b.inUse) - 1, Unmap(b.inUse), 100000 * b.h.level);
    hide Feed, Unmap, Used;
    assert GROUP_SIZE - 1 - x % GROUP_SIZE == 0 <==> (x + 1) / GROUP_SIZE == x / GROUP_SIZE + 1;
    if (x + 1) / GROUP_SIZE < |b.selector| && Feed(runs, sym, AlphaSize(b.inUse) - 1, Unmap(b.inUse), 100000 * b.h.level).More? {
      NextIs(b, x, Feed(runs, sym, AlphaSize(b.inUse) - 1, Unmap(b.inUse), 100000 * b.h.level).d);
    }
  }

  lemma {:induction false} SymbolsEnds(b: Body, x: nat, runs: Runs, bits: seq<bool>, e: Paused)
    returns (syms: seq<int>, l: seq<byte>)
    requires GoodBody(b, |b.lens|) && x / GROUP_SIZE < |b.selector| && |runs.mtf| == 256 && Ends(SymbolState(b, x, runs), bits, e)
    ensures AlphaSize(b.inUse) <= 258 && |Unmap(b.inUse)| == 256 && syms != [] && SymbolRange(syms, AlphaSize(b.inUse) - 1)
    ensures Named(b, syms, x) && (forall k :: 0 <= k < |syms| - 1 ==> syms[k] != AlphaSize(b.inUse) - 1)
    ensures FeedAll(runs, syms, AlphaSize(b.inUse) - 1, Unmap(b.inUse), 100000 * b.h.level) == Ended(l) && 0 <= b.h.origPtr < |l|
    ensures e.st == BlockDone(b.h, l) && bits == WordsFrom(b, syms, x) + e.bits
    decreases |bits|
  {
    hide Ends, Feed, FeedAll, Unmap, Used, AfterSymbol, Findable, Word, NextSymbol, GoodLengths;
    BodyFacts(b);
    var g, pos, eob, u, most := x / GROUP_SIZE, GROUP_SIZE - 1 - x % GROUP_SIZE, AlphaSize(b.inUse) - 1, Unmap(b.inUse), 100000 * b.h.level;
    var sym, rest := WordEnds(b, g, pos, runs, bits, e);
    NotFromError(AfterSymbol(b, g, pos, runs, sym), rest, e);
    SymbolCases(b, x, runs, sym);
    var f := Feed(runs, sym, eob, u, most);
    if f.More? {
      var more;
      more, l := SymbolsEnds(b, x + 1, f.d, rest, e);
      FeedMore(runs, sym, more, eob, u, most);
      syms := [sym] + more;
      assert syms[1..] == more;
      Assoc(Word(TableOf(b, g), sym), WordsFrom(b, more, x + 1), e.bits);
    } else {
      FeedMore(runs, sym, [], eob, u, most);
      syms, l := [sym], f.l;
      assert syms[1..] == [] && [sym] + [] == syms;
      assert Word(TableOf(b, g), sym) + [] == Word(TableOf(b, g), sym);
    }
  }

  // ---------- blocks ----------

  lemma NamedGood(b: Body, syms: seq<int>)
    requires GoodBody(b, |b.lens|) && Named(b, syms, 0) && SymbolRange(syms, AlphaSize(b.inUse) - 1)
    ensures GoodSymbols(PlanOf(b), syms)
    ensures forall x :: 0 <= x < |syms| ==> Findable(b.lens[b.selector[x / GROUP_SIZE]], syms[x])
  {
    hide Findable, Named, Used;
    forall x | 0 <= x < |syms|
      ensures x / GROUP_SIZE < |b.selector| && 0 <= b.selector[x / GROUP_SIZE] < |b.lens| && Findable(b.lens[b.selector[x / GROUP_SIZE]], syms[x])
    {
      NamedAt(b, syms, 0, x);
    }
    forall t, x | 0 <= t < |b.lens| && 0 <= x < |syms| ensures 0 <= syms[x] < |b.lens[t]| && b.lens[t][syms[x]] >= 0 {
      assert GoodLengths(b.lens[t], AlphaSize(b.inUse));
    }
  }

  /** From the first symbol on. */
  lemma BodyEnds(b: Body, bits: seq<bool>, e: Paused) returns (syms: seq<int>, l: seq<byte>)
    requires GoodBody(b, |b.lens|) && Ends(Start(b), bits, e)
    ensures LegalSymbols(b, syms, l) && 0 <= b.h.origPtr < |l| && e.st == BlockDone(b.h, l)
    ensures bits == SymbolBits(PlanOf(b), syms, 0) + e.bits
  {
    hide Ends, FeedAll, Unmap, Used, Findable, Named, Start, SymbolState;
    StartSymbol(b);
    syms, l := SymbolsEnds(b, 0, Runs(Numbers(256), -1, 1, []), bits, e);
    NamedGood(b, syms);
    assert syms[0..] == syms;
    WordsAre(b, syms, 0);
  }

  /** A block the parser hands over was legal, and it has read exactly its bits. */
  lemma AcceptedIsLegal(level: int, bits: seq<bool>, e: Paused) returns (x: Laid)
    requires Exec(BlockHeader(level, 0), bits) == e && e.st.BlockDone?
    ensures Legal(x, level) && e.st == BlockDone(x.b.h, x.l) && bits == LaidBits(x) + e.bits
  {
    assert Ends(BlockHeader(level, 0), bits, e);
    hide *;
    var more, h, t := HeaderEnds(level, bits, e);
    var used16, t2 := GroupsEnds(h, [], t, e);
    assert [] + used16 == used16;
    var inUse, t3 := MarksEnds(h, used16, [], t2, e);
    var n, sel, t4 := SelectorsEnds(h, inUse, t3, e);
    var b0 := Body(h, inUse, sel, []);
    var walks, lens, t5 := WalksEnds(b0, n, t4, e);
    assert [] + lens == lens;
    var b := Body(h, inUse, sel, lens);
    assert b0.(lens := b0.lens + lens) == b;
    var syms, l := BodyEnds(b, t5, e);
    x := Laid(b, used16, walks, syms, l);
    LegalFrom(x, level);
    LaidParts(x);
    PlanFields(b);
    SelectorParts(b, n, sel);
    var a, c, d, w, y := HeaderBits(h), used16 + MapFrom(used16, inUse, 0), SelectorBits(PlanOf(b)), WalksBits(walks), SymbolBits(PlanOf(b), syms, 0);
    Assoc(used16, MapFrom(used16, inUse, 0), t3);
    SixSections(a, c, d, w, y, e.bits);
  }

  lemma SelectorParts(b: Body, n: int, sel: seq<int>)
    requires b.selector == sel && |b.lens| == n >= 1 && AllBelow(sel, n) && AllIn(sel, Numbers(n)) && Injective(Numbers(n))
    ensures SelectorBits(PlanOf(b)) == ToBits(n, 3) + ToBits(|sel|, 15) + Unaries(Select(Numbers(n), sel))
  {
    hide ToBits, Unaries, Select;
  }

  lemma SixSections(a: seq<bool>, b: seq<bool>, c: seq<bool>, d: seq<bool>, f: seq<bool>, rest: seq<bool>)
    ensures a + (b + (c + (d + (f + rest)))) == a + (b + c + d) + f + rest
  {
    Assoc(a + (b + c + d), f, rest);
    Assoc(a, b + c + d, f + rest);
    Assoc(b + c, d, f + rest);
    Assoc(b, c, d + (f + rest));
  }

  lemma LegalFrom(x: Laid, level: int)
    requires LegalHead(x.b.h, level) && |x.used16| == 16 && GoodBody(x.b, |x.b.lens|)
    requires forall k :: 0 <= k < 256 && x.b.inUse[k] ==> x.used16[k / 16]
    requires 1 <= |x.b.selector| < 32768 && LegalWalks(x.walks, x.b.lens)
    requires LegalSymbols(x.b, x.syms, x.l) && 0 <= x.b.h.origPtr < |x.l|
    ensures Legal(x, level) && LegalTables(x) && GoodSymbols(PlanOf(x.b), x.syms)
  {
    hide Used, LegalWalks, Findable, FeedAll;
  }

  /**
   * The parser hands over exactly the legal blocks: for all bits, a block with its rest is what it arrives at if and
   * only if the bits are those of a legal block, followed by that rest.
   */
  lemma BlockExact(level: int, bits: seq<bool>, h: Header, l: seq<byte>, rest: seq<bool>)
    ensures Exec(BlockHeader(level, 0), bits) == Paused(BlockDone(h, l), rest)
       <==> exists x :: Spells(x, level, bits, rest) && x.b.h == h && x.l == l
  {
    hide Exec, Spells, Legal, LaidBits, LegalTables, GoodSymbols;
    if Exec(BlockHeader(level, 0), bits) == Paused(BlockDone(h, l), rest) {
      var x := AcceptedIsLegal(level, bits, Paused(BlockDone(h, l), rest));
      SpellsParts(x, level, bits, rest);
    }
    if x :| Spells(x, level, bits, rest) && x.b.h == h && x.l == l {
      SpellsParts(x, level, bits, rest);
      LegalIsAccepted(x, level, rest);
    }
  }

  lemma SpellsParts(x: Laid, level: int, bits: seq<bool>, rest: seq<bool>)
    ensures Spells(x, level, bits, rest) <==> Legal(x, level) && bits == LaidBits(x) + rest
  {
  }

  lemma LegalIsAccepted(x: Laid, level: int, rest: seq<bool>)
    requires Legal(x, level)
    ensures LegalTables(x) && GoodSymbols(PlanOf(x.b), x.syms)
    ensures Exec(BlockHeader(level, 0), LaidBits(x) + rest) == Paused(BlockDone(x.b.h, x.l), rest)
  {
    LegalDrives(x, level);
    var st, a, done := BlockHeader(level, 0), LaidBits(x), BlockDone(x.b.h, x.l);
    assert Exec(st, a) == Paused(done, []) && Sane(st);
    hide *;
    ExecResumes(st, a, rest);
    assert [] + rest == rest;
    DoneStays(x.b.h, x.l, rest);
  }

  lemma DoneStays(h: Header, l: seq<byte>, rest: seq<bool>)
    ensures Exec(BlockDone(h, l), rest) == Paused(BlockDone(h, l), rest)
  {
  }

  /** The end of the stream, likewise: exactly behind its mark and a checksum. */
  lemma EndExact(level: int, bits: seq<bool>, crc: int, rest: seq<bool>)
    ensures Exec(BlockHeader(level, 0), bits) == Paused(StreamEnd(crc), rest)
       <==> 0 <= crc < WORD && bits == StreamTail(crc) + rest
  {
    hide Exec, StreamTail, Bytes, ToBits, LegalHead;
    var st := BlockHeader(level, 0);
    if Exec(st, bits) == Paused(StreamEnd(crc), rest) {
      var more, h, t := HeaderEnds(level, bits, Paused(StreamEnd(crc), rest));
      if more {
        NoEndInBlock(h, t, Paused(StreamEnd(crc), rest));
      }
    }
    if 0 <= crc < WORD && bits == StreamTail(crc) + rest {
      TailDrives(level, crc);
      hide Drives;
      DrivesOnward(st, StreamTail(crc), StreamEnd(crc), rest);
      ExecStops(StreamEnd(crc), rest);
    }
  }

  /** Inside a block there is no way to the end of the stream. */
  lemma NoEndInBlock(h: Header, bits: seq<bool>, e: Paused)
    requires Ends(Mapping16(h, []), bits, e)
    ensures e.st.BlockDone?
  {
    hide *;
    var used16, t2 := GroupsEnds(h, [], bits, e);
    assert [] + used16 == used16;
    var inUse, t3 := MarksEnds(h, used16, [], t2, e);
    var n, sel, t4 := SelectorsEnds(h, inUse, t3, e);
    var b0 := Body(h, inUse, sel, []);
    var walks, lens, t5 := WalksEnds(b0, n, t4, e);
    assert b0.lens + lens == lens && b0.(lens := b0.lens + lens) == Body(h, inUse, sel, lens);
    var syms, l := BodyEnds(Body(h, inUse, sel, lens), t5, e);
  }
}
