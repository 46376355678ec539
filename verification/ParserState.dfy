/**
 * What the parser keeps between calls: the label it stopped at, the saved copies of its variables and its tables;
 * and which state of the abstract parser that stands for.
 */
module ParserState {
  import opened Bits
  import opened Rotations
  import opened Counting
  import opened CanonicalCodes
  import opened MoveToFront
  import opened GenerateMtf
  import opened DecodeMachine
  import opened SymbolRoundTrip

  const MAX_ALPHA_SIZE := 258
  const MAX_GROUPS := 6

  const X_IDLE := 1
  const X_OUTPUT := 2
  const X_MAGIC_1 := 10
  const X_BLKHDR_1 := 14
  const X_BCRC_1 := 20
  const X_RANDBIT := 24
  const X_ORIGPTR_1 := 25
  const X_MAPPING_1 := 28
  const X_MAPPING_2 := 29
  const X_SELECTOR_1 := 30
  const X_SELECTOR_2 := 31
  const X_SELECTOR_3 := 32
  const X_CODING_1 := 33
  const X_CODING_2 := 34
  const X_CODING_3 := 35
  const X_MTF_1 := 36
  const X_MTF_2 := 37
  const X_MTF_3 := 38
  const X_MTF_4 := 39
  const X_MTF_5 := 40
  const X_MTF_6 := 41
  const X_ENDHDR_2 := 42
  const X_CCRC_1 := 47

  /** The variables of the parser that outlive a suspension; the row pointers are row numbers. */
  datatype Saved = Saved(
    i: int, j: int, t: int, alphaSize: int, nGroups: int, nSelectors: int, eob: int, groupNo: int, groupPos: int,
    nextSym: int, nblockMAX: int, nblock: int, es: int, n: int, curr: int, zt: int, zn: int, zvec: int, zj: int,
    gSel: int, gMinlen: int, gLimit: int, gBase: int, gPerm: int)

  const NOTHING_SAVED := Saved(0, 0, 0, 0, 0, 0, 0, 0, 0, 0, 0, 0, 0, 0, 0, 0, 0, 0, 0, 0, 0, 0, 0, 0)

  /** The decoding tables of one group. */
  datatype Table = Table(limit: seq<int>, base: seq<int>, perm: seq<int>, minLen: int)

  /** All that the parser holds: x are its variables, mtf the list in its arena, column what has been read of the block. */
  datatype View = View(
    state: int, x: Saved, level: int, blockCRC: int, combinedCRC: int, randomised: bool, origPtr: int,
    inUse16: seq<bool>, inUse: seq<bool>, nInUse: int, seqToUnseq: seq<byte>,
    selectorMtf: seq<int>, selector: seq<int>, len: seq<seq<int>>, tables: seq<Table>,
    mtf: seq<byte>, column: seq<byte>)

  // ---------- sizes ----------

  predicate LevelOk(level: int) { 1 <= level <= 9 }

  /** The header fits the format, and no column outgrows the block size it declares. */
  predicate Sized(st: State) {
    match st
    case Magic(_) => true
    case BlockHeader(level, _) => LevelOk(level)
    case BlockCrc(level, _, _) => LevelOk(level)
    case RandBit(level, _) => LevelOk(level)
    case OrigPtr(level, _, _, _, _) => LevelOk(level)
    case Mapping16(h, _) => LevelOk(h.level)
    case Mapping(h, _, _) => LevelOk(h.level)
    case GroupCount(h, _) => LevelOk(h.level)
    case SelectorCount(h, _, _) => LevelOk(h.level)
    case Selector(h, _, _, _, _, _) => LevelOk(h.level)
    case FirstLength(b, _) => LevelOk(b.h.level)
    case LengthMore(b, _, _, _) => LevelOk(b.h.level)
    case LengthSign(b, _, _, _) => LevelOk(b.h.level)
    case CodeStart(b, _, _, runs) => LevelOk(b.h.level) && |runs.l| <= 100000 * b.h.level
    case CodeMore(b, _, _, runs, _, _) => LevelOk(b.h.level) && |runs.l| <= 100000 * b.h.level
    case BlockDone(h, l) => LevelOk(h.level) && 0 <= h.origPtr < |l| <= 100000 * h.level
    case _ => true
  }

  lemma AdvanceSized(st: State, v: int)
    requires Sane(st) && Sized(st) && !Halted(st) && v >= 0
    ensures Sized(Advance(st, v))
  {
    hide TryCode, AdvanceHeader, AdvanceTables, GoodLengths, Used, TableOf;
    if st.CodeStart? {
      LeastGood(TableOf(st.b, st.groupNo), AlphaSize(st.b.inUse));
      TrySized(st.b, st.groupNo, st.groupPos, st.runs, Least(TableOf(st.b, st.groupNo)), v);
    } else if st.CodeMore? {
      TrySized(st.b, st.groupNo, st.groupPos, st.runs, st.zn, st.zvec * 2 + v);
    } else if st.Magic? || st.BlockHeader? || st.BlockCrc? || st.RandBit? || st.OrigPtr? || st.EndHeader? || st.CombinedCrc? {
      HeaderSized(st, v);
    } else {
      TablesSized(st, v);
    }
  }

  lemma HeaderSized(st: State, v: int)
    requires Sane(st) && Sized(st) && !Halted(st) && v >= 0
    ensures Sized(AdvanceHeader(st, v))
  {
  }

  lemma TablesSized(st: State, v: int)
    requires Sane(st) && Sized(st) && !Halted(st) && v >= 0
    ensures Sized(AdvanceTables(st, v))
  {
    hide Settle, Unselect, Numbers, Used, GoodLengths;
  }

  lemma TrySized(b: Body, groupNo: int, groupPos: int, runs: Runs, zn: int, zvec: int)
    requires InSymbols(b, groupNo, groupPos, runs) && 1 <= zn <= 21
    requires LevelOk(b.h.level) && |runs.l| <= 100000 * b.h.level
    ensures Sized(TryCode(b, groupNo, groupPos, runs, zn, zvec))
  {
    hide LimitAt, BaseAt, SymbolAt, Unmap, AlphaSize, Copies, Front, Used, GoodLengths;
  }

  // ---------- what is held at each label ----------

  ghost predicate HeaderIs(v: View, h: Header) {
    h == Header(v.level, v.blockCRC, v.randomised, v.origPtr)
  }

  /** The bytes in use have been read and numbered. */
  ghost predicate MapRead(v: View, inUse: seq<bool>) {
    && GoodMap(inUse) && v.inUse == inUse && |v.seqToUnseq| == 256
    && v.nInUse == |Used(inUse, 256)| && v.seqToUnseq[..v.nInUse] == Used(inUse, 256)
    && v.x.alphaSize == v.nInUse + 2
  }

  ghost predicate SelectorsAre(v: View, sel: seq<int>) {
    1 <= v.x.nSelectors <= |v.selector| && sel == v.selector[..v.x.nSelectors]
  }

  /** The code lengths of the groups before the one being read. */
  ghost predicate LengthsAre(v: View, lens: seq<seq<int>>) {
    && |v.len| == MAX_GROUPS && v.x.t == |lens| && |lens| <= MAX_GROUPS && 0 <= v.x.alphaSize <= MAX_ALPHA_SIZE
    && forall k :: 0 <= k < |lens| ==> |v.len[k]| == MAX_ALPHA_SIZE && lens[k] == v.len[k][..v.x.alphaSize]
  }

  ghost predicate ReadingLengths(v: View, b: Body, nGroups: int) {
    && HeaderIs(v, b.h) && MapRead(v, b.inUse) && SelectorsAre(v, b.selector)
    && LengthsAre(v, b.lens) && v.x.nGroups == nGroups
  }

  /** The lengths of the current group read so far, and the one being read. */
  ghost predicate Row(v: View, cur: seq<int>, curr: int) {
    && |v.len| == MAX_GROUPS && 0 <= v.x.t < MAX_GROUPS && |v.len[v.x.t]| == MAX_ALPHA_SIZE
    && v.x.i == |cur| <= MAX_ALPHA_SIZE && cur == v.len[v.x.t][..v.x.i] && v.x.curr == curr
  }

  /** The tables of a group are those of its lengths, wherever the decoding loop may look. */
  ghost predicate TableIs(tb: Table, len: seq<int>) {
    && tb.minLen == Least(len)
    && |tb.limit| == |tb.base| == MAX_CODE_LEN && |tb.perm| == MAX_ALPHA_SIZE && |len| <= MAX_ALPHA_SIZE
    && (forall n :: 0 <= n && Least(len) <= n <= 20 ==> tb.limit[n] == LimitAt(len, n) && tb.base[n] == BaseAt(len, n))
    && (forall r :: 0 <= r < |len| ==> 0 <= SymbolAt(len, r, 0) < |len| && tb.perm[r] == SymbolAt(len, r, 0))
  }

  ghost predicate TablesAre(v: View, lens: seq<seq<int>>) {
    |v.tables| == MAX_GROUPS && |lens| <= MAX_GROUPS && forall k :: 0 <= k < |lens| ==> TableIs(v.tables[k], lens[k])
  }

  /** Everything about a block that stays as it is while its symbols are read. */
  ghost predicate InBlock(v: View, b: Body) {
    && HeaderIs(v, b.h) && MapRead(v, b.inUse) && SelectorsAre(v, b.selector) && GoodBody(b, |b.lens|)
    && TablesAre(v, b.lens)
    && v.x.eob == v.nInUse + 1 && v.x.nblockMAX == 100000 * v.level
  }

  /** The table in use. */
  ghost predicate InGroup(v: View, b: Body, groupNo: int) {
    && GoodBody(b, |b.lens|) && 0 <= groupNo < |b.selector| && v.x.groupNo == groupNo
    && v.x.gSel == v.x.gLimit == v.x.gBase == v.x.gPerm == b.selector[groupNo]
    && v.x.gMinlen == Least(TableOf(b, groupNo))
  }

  /** The list, the run being read, if there is one, and the column; bytes not in use stay at the back of the list. */
  ghost predicate RunsAre(v: View, runs: Runs, inRun: bool) {
    && |runs.mtf| == 256 && v.mtf == runs.mtf && 0 <= v.nInUse <= 256
    && (forall k :: 0 <= k < v.nInUse ==> runs.mtf[k] < v.nInUse)
    && v.column == runs.l && v.x.nblock == |runs.l|
    && runs.es == (if inRun then v.x.es else -1) && runs.n == (if inRun then v.x.n else 1) && runs.es >= -1 && runs.n >= 1
  }

  predicate StartLabel(state: int) { state == X_MTF_1 || state == X_MTF_3 || state == X_MTF_5 }

  predicate MoreLabel(state: int) { state == X_MTF_2 || state == X_MTF_4 || state == X_MTF_6 }

  predicate RunLabel(state: int) { state == X_MTF_3 || state == X_MTF_4 }

  /** The held values, at the label reached, are those of the abstract state. */
  ghost predicate Matches(v: View, st: State) {
    match st
    case Magic(k) => k <= 3 && v.state == X_MAGIC_1 + k
    case BlockHeader(level, k) => k <= 5 && v.state == X_BLKHDR_1 + k && level == v.level
    case BlockCrc(level, k, crc) => k <= 3 && v.state == X_BCRC_1 + k && level == v.level && crc == v.blockCRC
    case RandBit(level, crc) => v.state == X_RANDBIT && level == v.level && crc == v.blockCRC
    case OrigPtr(level, crc, randomised, k, orig) =>
      && k <= 2 && v.state == X_ORIGPTR_1 + k && level == v.level && crc == v.blockCRC
      && randomised == v.randomised && orig == v.origPtr
    case Mapping16(h, used16) =>
      v.state == X_MAPPING_1 && HeaderIs(v, h) && |v.inUse16| == 16 && 0 <= v.x.i < 16 && used16 == v.inUse16[..v.x.i]
    case Mapping(h, used16, inUse) => v.state == X_MAPPING_2 && HeaderIs(v, h) && ReadingMap(v, used16, inUse)
    case GroupCount(h, inUse) => v.state == X_SELECTOR_1 && HeaderIs(v, h) && MapRead(v, inUse)
    case SelectorCount(h, inUse, nGroups) => v.state == X_SELECTOR_2 && HeaderIs(v, h) && MapRead(v, inUse) && v.x.nGroups == nGroups
    case Selector(h, inUse, nGroups, nSelectors, mtf, j) =>
      && v.state == X_SELECTOR_3 && HeaderIs(v, h) && MapRead(v, inUse) && v.x.nGroups == nGroups && v.x.nSelectors == nSelectors
      && 0 <= v.x.i < nSelectors <= |v.selectorMtf| && mtf == v.selectorMtf[..v.x.i] && v.x.j == j
    case FirstLength(b, nGroups) => v.state == X_CODING_1 && ReadingLengths(v, b, nGroups)
    case LengthMore(b, nGroups, cur, curr) => v.state == X_CODING_2 && ReadingLengths(v, b, nGroups) && Row(v, cur, curr)
    case LengthSign(b, nGroups, cur, curr) => v.state == X_CODING_3 && ReadingLengths(v, b, nGroups) && Row(v, cur, curr)
    case CodeStart(b, groupNo, groupPos, runs) =>
      && StartLabel(v.state) && InBlock(v, b) && InGroup(v, b, groupNo) && v.x.groupPos == groupPos
      && v.x.zn == v.x.gMinlen && RunsAre(v, runs, RunLabel(v.state))
    case CodeMore(b, groupNo, groupPos, runs, zn, zvec) =>
      && MoreLabel(v.state) && InBlock(v, b) && InGroup(v, b, groupNo) && v.x.groupPos == groupPos
      && v.x.gMinlen <= v.x.zn == zn && v.x.zvec == zvec && RunsAre(v, runs, RunLabel(v.state))
    case BlockDone(h, l) => v.state == X_OUTPUT && HeaderIs(v, h) && v.column == l && v.x.nblock == |l|
    case EndHeader(level, k) => 1 <= k <= 5 && v.state == X_ENDHDR_2 + k - 1 && level == v.level
    case CombinedCrc(k, crc) => k <= 3 && v.state == X_CCRC_1 + k && crc == v.combinedCRC
    case StreamEnd(crc) => v.state == X_IDLE && crc == v.combinedCRC
    case DataError => false
    case MagicError => false
  }

  /** The labels of the headers and the trailer. */
  lemma HeaderMatches(v: View, st: State)
    ensures st.Magic? ==> (Matches(v, st) <==> st.k <= 3 && v.state == X_MAGIC_1 + st.k)
    ensures st.BlockHeader? ==> (Matches(v, st) <==> st.k <= 5 && v.state == X_BLKHDR_1 + st.k && st.level == v.level)
    ensures st.BlockCrc? ==>
              (Matches(v, st) <==> st.k <= 3 && v.state == X_BCRC_1 + st.k && st.level == v.level && st.crc == v.blockCRC)
    ensures st.RandBit? ==> (Matches(v, st) <==> v.state == X_RANDBIT && st.level == v.level && st.crc == v.blockCRC)
    ensures st.OrigPtr? ==>
              (Matches(v, st) <==> && st.k <= 2 && v.state == X_ORIGPTR_1 + st.k && st.level == v.level && st.crc == v.blockCRC
                                   && st.randomised == v.randomised && st.orig == v.origPtr)
    ensures st.Mapping16? ==>
              (Matches(v, st) <==> && v.state == X_MAPPING_1 && HeaderIs(v, st.h) && |v.inUse16| == 16
                                   && 0 <= v.x.i < 16 && st.used16 == v.inUse16[..v.x.i])
    ensures st.EndHeader? ==> (Matches(v, st) <==> 1 <= st.k <= 5 && v.state == X_ENDHDR_2 + st.k - 1 && st.level == v.level)
    ensures st.CombinedCrc? ==> (Matches(v, st) <==> st.k <= 3 && v.state == X_CCRC_1 + st.k && st.crc == v.combinedCRC)
    ensures st.StreamEnd? ==> (Matches(v, st) <==> v.state == X_IDLE && st.crc == v.combinedCRC)
  {
    hide HeaderIs;
  }

  /** The labels of the mapping, the selectors and the code lengths. */
  lemma TableMatches(v: View, st: State)
    ensures st.Mapping? ==>
              (Matches(v, st) <==> v.state == X_MAPPING_2 && HeaderIs(v, st.h) && ReadingMap(v, st.used16, st.inUse))
    ensures st.GroupCount? ==> (Matches(v, st) <==> v.state == X_SELECTOR_1 && HeaderIs(v, st.h) && MapRead(v, st.inUse))
    ensures st.SelectorCount? ==>
              (Matches(v, st) <==> v.state == X_SELECTOR_2 && HeaderIs(v, st.h) && MapRead(v, st.inUse) && v.x.nGroups == st.nGroups)
    ensures st.Selector? ==>
              (Matches(v, st) <==> && v.state == X_SELECTOR_3 && HeaderIs(v, st.h) && MapRead(v, st.inUse)
                                   && v.x.nGroups == st.nGroups && v.x.nSelectors == st.nSelectors
                                   && 0 <= v.x.i < st.nSelectors <= |v.selectorMtf| && st.mtf == v.selectorMtf[..v.x.i] && v.x.j == st.j)
    ensures st.FirstLength? ==> (Matches(v, st) <==> v.state == X_CODING_1 && ReadingLengths(v, st.b, st.nGroups))
    ensures st.LengthMore? ==>
              (Matches(v, st) <==> v.state == X_CODING_2 && ReadingLengths(v, st.b, st.nGroups) && Row(v, st.cur, st.curr))
    ensures st.LengthSign? ==>
              (Matches(v, st) <==> v.state == X_CODING_3 && ReadingLengths(v, st.b, st.nGroups) && Row(v, st.cur, st.curr))
  {
    hide HeaderIs, MapRead, ReadingMap, ReadingLengths, Row;
  }

  /** The labels of the symbols, and a finished block. */
  lemma SymbolMatches(v: View, st: State)
    ensures st.CodeStart? ==>
              (Matches(v, st) <==> && StartLabel(v.state) && InBlock(v, st.b) && InGroup(v, st.b, st.groupNo) && v.x.groupPos == st.groupPos
                                   && v.x.zn == v.x.gMinlen && RunsAre(v, st.runs, RunLabel(v.state)))
    ensures st.CodeMore? ==>
              (Matches(v, st) <==> && MoreLabel(v.state) && InBlock(v, st.b) && InGroup(v, st.b, st.groupNo) && v.x.groupPos == st.groupPos
                                   && v.x.gMinlen <= v.x.zn == st.zn && v.x.zvec == st.zvec && RunsAre(v, st.runs, RunLabel(v.state)))
    ensures st.BlockDone? ==> (Matches(v, st) <==> v.state == X_OUTPUT && HeaderIs(v, st.h) && v.column == st.l && v.x.nblock == |st.l|)
  {
    hide HeaderIs, InBlock, InGroup, RunsAre;
  }

  /** The marks read so far: all groups before i, and j bytes of group i; the rest is still clear. */
  ghost predicate ReadingMap(v: View, used16: seq<bool>, inUse: seq<bool>) {
    && |v.inUse16| == 16 && used16 == v.inUse16 && |v.inUse| == 256 && 0 <= v.x.i < 16 && 0 <= v.x.j < 16
    && v.inUse16[v.x.i] && inUse == v.inUse[..16 * v.x.i + v.x.j]
    && forall p :: 16 * v.x.i + v.x.j <= p < 256 ==> !v.inUse[p]
  }

  // ---------- answers ----------

  datatype Code = Going | BlockReady | EndReached | BadData | BadMagic

  /** A segment of the parser has done what the abstract parser does. */
  ghost predicate Answers(code: Code, v: View, st: State) {
    match code
    case Going => !Halted(st) && Matches(v, st)
    case BlockReady => st.BlockDone? && Matches(v, st)
    case EndReached => st.StreamEnd? && Matches(v, st)
    case BadData => st.DataError?
    case BadMagic => st.MagicError?
  }

  /** The label tells which kind of state it is. */
  lemma LabelKind(v: View, st: State)
    requires Matches(v, st) && !Halted(st)
    ensures X_MAGIC_1 <= v.state <= X_CCRC_1 + 3
    ensures (st.Magic? <==> v.state < X_BLKHDR_1) && (st.BlockHeader? <==> X_BLKHDR_1 <= v.state < X_BCRC_1)
    ensures (st.BlockCrc? <==> X_BCRC_1 <= v.state < X_RANDBIT) && (st.RandBit? <==> v.state == X_RANDBIT)
    ensures (st.OrigPtr? <==> X_ORIGPTR_1 <= v.state < X_MAPPING_1) && (st.Mapping16? <==> v.state == X_MAPPING_1)
    ensures (st.Mapping? <==> v.state == X_MAPPING_2) && (st.GroupCount? <==> v.state == X_SELECTOR_1)
    ensures (st.SelectorCount? <==> v.state == X_SELECTOR_2) && (st.Selector? <==> v.state == X_SELECTOR_3)
    ensures (st.FirstLength? <==> v.state == X_CODING_1) && (st.LengthMore? <==> v.state == X_CODING_2)
    ensures (st.LengthSign? <==> v.state == X_CODING_3) && (st.CodeStart? <==> StartLabel(v.state)) && (st.CodeMore? <==> MoreLabel(v.state))
    ensures (st.EndHeader? <==> X_ENDHDR_2 <= v.state < X_CCRC_1) && (st.CombinedCrc? <==> X_CCRC_1 <= v.state)
  {
    hide HeaderIs, MapRead, ReadingMap, ReadingLengths, Row, InBlock, InGroup, RunsAre;
  }

  /** The two labels that stand for no parsing. */
  lemma RestLabels(v: View, st: State)
    requires Matches(v, st)
    ensures (v.state == X_OUTPUT <==> st.BlockDone?) && (v.state == X_IDLE <==> st.StreamEnd?)
    ensures !st.DataError? && !st.MagicError?
  {
    hide HeaderIs, MapRead, ReadingMap, ReadingLengths, Row, InBlock, InGroup, RunsAre;
  }

  /** At the first label nothing is live. */
  lemma MagicSaved(v: View, st: State)
    requires Matches(v, st) && !Halted(st)
    ensures v.state == X_MAGIC_1 ==> Matches(v.(x := NOTHING_SAVED), st)
  {
    LabelKind(v, st);
    HeaderMatches(v, st);
    HeaderMatches(v.(x := NOTHING_SAVED), st);
    hide Matches;
  }

  lemma AnswerHalts(code: Code, v: View, st: State)
    requires Answers(code, v, st)
    ensures code == Going <==> !Halted(st)
    ensures code == Going ==> Matches(v, st)
  {
    hide Matches;
  }

  lemma AnswerMapping(v: View, h: Header, used16: seq<bool>, inUse: seq<bool>)
    requires v.state == X_MAPPING_2 && HeaderIs(v, h) && ReadingMap(v, used16, inUse)
    ensures Answers(Going, v, Mapping(h, used16, inUse))
  {
  }

  /** How many bits the label waits for. */
  function Width(state: int, x: Saved): int {
    if state == X_RANDBIT || state == X_MAPPING_1 || state == X_MAPPING_2 || state == X_SELECTOR_3 then 1
    else if state == X_CODING_2 || state == X_CODING_3 || MoreLabel(state) then 1
    else if state == X_SELECTOR_1 then 3
    else if state == X_SELECTOR_2 then 15
    else if state == X_CODING_1 then 5
    else if StartLabel(state) then x.zn
    else 8
  }

  lemma WidthIsNeed(v: View, st: State)
    requires Sane(st) && !Halted(st) && Matches(v, st)
    ensures Width(v.state, v.x) == Need(st)
  {
    hide InBlock, RunsAre, ReadingLengths, ReadingMap, MapRead, Row, Least, Used, GoodLengths;
  }

  /** What a label waits for, and what the abstract parser does with it. */
  lemma TurnFacts(v: View, st: State, bits: seq<bool>)
    requires Sane(st) && Sized(st) && !Halted(st) && Matches(v, st)
    ensures var n := Width(v.state, v.x);
      && 1 <= n <= 24 && n == Need(st)
      && (|bits| >= n ==>
            var u := Value(bits[..n]);
            && u >= 0 && (st.SelectorCount? ==> u < 32768)
            && Sane(Advance(st, u)) && Sized(Advance(st, u)) && Exec(st, bits) == Exec(Advance(st, u), bits[n..]))
  {
    WidthIsNeed(v, st);
    ExecTurn(st, bits);
    hide Matches, Sane, Sized, Advance, Exec, Need, Halted, Width;
    if |bits| >= Need(st) {
      AdvanceSized(st, Value(bits[..Need(st)]));
    }
  }

  // ---------- the mapping ----------

  /** The mapping passes over groups that are not in use. */
  lemma {:induction false} SettleOver(used16: seq<bool>, inUse: seq<bool>, k: int, m: int)
    requires |used16| == 16 && |inUse| == 256 && 0 <= k <= m <= 256
    requires forall p :: k <= p < m ==> !used16[p / 16] && !inUse[p]
    ensures Settle(used16, inUse[..k]) == Settle(used16, inUse[..m])
    decreases m - k
  {
    if k < m {
      assert inUse[..k] + [false] == inUse[..k + 1];
      SettleOver(used16, inUse, k + 1, m);
    }
  }

  /** From group g on, the next group in use is i; or there is none left. */
  lemma MappingNext(h: Header, used16: seq<bool>, inUse: seq<bool>, g: int, i: int)
    requires |used16| == 16 && |inUse| == 256 && 0 <= g <= i <= 16
    requires (forall k :: g <= k < i ==> !used16[k]) && (i < 16 ==> used16[i])
    requires forall p :: 16 * g <= p < 256 ==> !inUse[p]
    ensures i < 16 ==> AfterMapping(h, used16, inUse[..16 * g]) == Mapping(h, used16, inUse[..16 * i])
    ensures i == 16 ==>
              AfterMapping(h, used16, inUse[..16 * g]) == (if Used(inUse, 256) == [] then DataError else GroupCount(h, inUse))
  {
    forall p | 16 * g <= p < 16 * i ensures !used16[p / 16] {
    }
    SettleOver(used16, inUse, 16 * g, 16 * i);
    SettleStops(used16, inUse, i);
    hide Used, Settle;
  }

  lemma SettleStops(used16: seq<bool>, inUse: seq<bool>, i: int)
    requires |used16| == 16 && |inUse| == 256 && 0 <= i <= 16 && (i < 16 ==> used16[i])
    ensures Settle(used16, inUse[..16 * i]) == inUse[..16 * i] && (i == 16 ==> inUse[..16 * i] == inUse)
  {
  }

  lemma MappingStays(h: Header, used16: seq<bool>, inUse: seq<bool>)
    requires |used16| == 16 && |inUse| < 256 && used16[|inUse| / 16]
    ensures AfterMapping(h, used16, inUse) == Mapping(h, used16, inUse)
  {
    hide Used;
  }

  // ---------- selectors ----------

  lemma MoreUnary(v: View, st: State, bit: int, code: Code)
    requires st.Selector? && Sane(st) && Matches(v.(x := v.x.(j := st.j)), st) && v.x.j == st.j + 1 && bit > 0
    requires code == if v.x.j >= v.x.nGroups then BadData else Going
    ensures Answers(code, v, Advance(st, bit))
  {
    TableMatches(v.(x := v.x.(j := st.j)), st);
    TableMatches(v, Advance(st, bit));
    hide Matches, Used;
  }

  lemma NextSelector(v: View, st: State, mtfs: seq<int>)
    requires st.Selector? && Sane(st) && mtfs == st.mtf + [st.j] && |mtfs| < st.nSelectors
    requires v.state == X_SELECTOR_3 && HeaderIs(v, st.h) && MapRead(v, st.inUse) && v.x.nGroups == st.nGroups && v.x.nSelectors == st.nSelectors
    requires v.x.i == |mtfs| && v.x.nSelectors <= |v.selectorMtf| && mtfs == v.selectorMtf[..v.x.i] && v.x.j == 0
    ensures Answers(Going, v, Advance(st, 0))
  {
    TableMatches(v, Advance(st, 0));
    hide Matches, Used;
  }

  lemma AllSelectors(v: View, st: State, mtfs: seq<int>)
    requires st.Selector? && Sane(st) && mtfs == st.mtf + [st.j] && |mtfs| == st.nSelectors
    requires v.state == X_CODING_1 && HeaderIs(v, st.h) && MapRead(v, st.inUse) && v.x.nGroups == st.nGroups && v.x.nSelectors == st.nSelectors
    requires v.x.t == 0 && |v.len| == MAX_GROUPS && v.x.nSelectors <= |v.selector|
    requires v.selector[..v.x.nSelectors] == Unselect(Numbers(st.nGroups), mtfs)
    ensures Answers(Going, v, Advance(st, 0))
  {
    TableMatches(v, Advance(st, 0));
    hide Matches, Used, Unselect, Numbers;
  }

  lemma UnselectNone(pos: seq<int>, mtf: seq<int>)
    requires mtf == []
    ensures Unselect(pos, mtf) == []
  {
  }

  lemma UnselectStep(pos: seq<int>, mtf: seq<int>, i: int)
    requires 0 <= i < |mtf| && forall k :: 0 <= k < |mtf| ==> 0 <= mtf[k] < |pos|
    ensures Unselect(pos, mtf[i..]) == [pos[mtf[i]]] + Unselect(Front(pos, mtf[i]), mtf[i + 1..])
  {
    assert mtf[i..][1..] == mtf[i + 1..] && mtf[i..][0] == mtf[i];
  }

  // ---------- lengths ----------

  lemma AnswerLength(v: View, b: Body, nGroups: int, cur: seq<int>, curr: int, code: Code)
    requires GoodBody(b, nGroups) && |b.lens| < nGroups && |cur| < AlphaSize(b.inUse) && GoodLengths(cur, |cur|)
    requires v.state == X_CODING_2 && ReadingLengths(v, b, nGroups) && Row(v, cur, curr)
    requires code == if curr < 1 || curr > 20 then BadData else Going
    ensures Answers(code, v, CheckLength(b, nGroups, cur, curr))
  {
    hide Used, ReadingLengths, Row;
  }

  lemma RowFacts(v: View, b: Body, nGroups: int, cur: seq<int>, curr: int)
    requires ReadingLengths(v, b, nGroups) && Row(v, cur, curr)
    ensures v.x.alphaSize == AlphaSize(b.inUse) <= MAX_ALPHA_SIZE && 0 <= v.x.t == |b.lens| < MAX_GROUPS == |v.len|
    ensures v.x.nGroups == nGroups && |v.len[v.x.t]| == MAX_ALPHA_SIZE && v.x.i == |cur| && v.x.curr == curr && v.level == b.h.level
  {
    hide Used;
  }

  lemma LengthAdded(b: Body, nGroups: int, cur: seq<int>, curr: int)
    requires GoodBody(b, nGroups) && |b.lens| < nGroups && GoodLengths(cur, |cur|) && 1 <= curr <= 20
    ensures GoodLengths(cur + [curr], |cur| + 1)
    ensures |cur| + 1 == AlphaSize(b.inUse) ==> GoodBody(b.(lens := b.lens + [cur + [curr]]), nGroups)
  {
    hide Used;
  }

  lemma LengthFacts(v: View, b: Body)
    requires ReadingLengths(v, b, |b.lens|) && GoodBody(b, |b.lens|)
    ensures v.x.nGroups == |b.lens| <= MAX_GROUPS == |v.len| && 0 < v.x.alphaSize <= MAX_ALPHA_SIZE
    ensures forall k :: 0 <= k < |b.lens| ==> v.x.alphaSize <= |v.len[k]| && GoodLengths(v.len[k][..v.x.alphaSize], v.x.alphaSize)
  {
    hide Used, GoodLengths;
  }

  lemma InUseCount(v: View, b: Body)
    requires ReadingLengths(v, b, |b.lens|)
    ensures 0 <= v.nInUse <= 256
  {
    hide Used;
  }

  /** One more length in the current row. */
  lemma RowGrows(v: View, b: Body, nGroups: int, cur: seq<int>, curr: int)
    requires ReadingLengths(v, b, nGroups) && Row(v, cur, curr) && |cur| < MAX_ALPHA_SIZE
    ensures var v' := v.(x := v.x.(i := v.x.i + 1), len := v.len[v.x.t := v.len[v.x.t][v.x.i := curr]]);
      ReadingLengths(v', b, nGroups) && Row(v', cur + [curr], curr)
  {
    hide Used;
  }

  lemma LengthsKept(v: View, b: Body, nGroups: int, v': View)
    requires ReadingLengths(v, b, nGroups) && v' == v.(state := v'.state)
    ensures ReadingLengths(v', b, nGroups) && forall cur, curr :: Row(v, cur, curr) ==> Row(v', cur, curr)
  {
    hide Used;
  }

  /** The current row is complete. */
  lemma RowEnds(v: View, b: Body, nGroups: int, cur: seq<int>, curr: int)
    requires ReadingLengths(v, b, nGroups) && Row(v, cur, curr) && |cur| == AlphaSize(b.inUse)
    ensures ReadingLengths(v.(x := v.x.(t := v.x.t + 1)), b.(lens := b.lens + [cur]), nGroups)
  {
    hide Used;
  }

  lemma AnswerGroup(v: View, b: Body, nGroups: int)
    requires v.state == X_CODING_1 && ReadingLengths(v, b, nGroups)
    ensures Answers(Going, v, FirstLength(b, nGroups))
  {
    hide ReadingLengths;
  }

  lemma AnswerSign(v: View, b: Body, nGroups: int, cur: seq<int>, curr: int)
    requires v.state == X_CODING_3 && ReadingLengths(v, b, nGroups) && Row(v, cur, curr)
    ensures Answers(Going, v, LengthSign(b, nGroups, cur, curr))
  {
    hide ReadingLengths, Row;
  }

  // ---------- tables ----------

  /** The tables built from the lengths of a group are right wherever the decoding loop may look. */
  lemma TablesAgree(limit: seq<int>, base: seq<int>, perm: seq<int>, len: seq<int>)
    requires GoodLengths(len, |len|) && 0 < |len| <= MAX_ALPHA_SIZE && |limit| == |base| == MAX_CODE_LEN && |perm| == MAX_ALPHA_SIZE
    requires Tables(limit, base, perm, len, Least(len), Greatest(len))
    requires forall n :: 0 <= n < MAX_CODE_LEN && !(Least(len) <= n <= Greatest(len)) ==> limit[n] == 0
    requires forall n :: Greatest(len) < n < MAX_CODE_LEN ==> base[n] == Below(len, |len|, n)
    ensures TableIs(Table(limit, base, perm, Least(len)), len)
  {
    LeastGood(len, |len|);
    LimitsAgree(limit, base, perm, len);
    BasesAgree(limit, base, perm, len);
    PermAgrees(limit, base, perm, len);
    hide Tables, Rank, Occ, Below, First, SymbolAt, LimitAt, BaseAt, Least, Greatest;
  }

  lemma LimitsAgree(limit: seq<int>, base: seq<int>, perm: seq<int>, len: seq<int>)
    requires |limit| == |base| == MAX_CODE_LEN && 1 <= Least(len) <= Greatest(len) <= 20
    requires Tables(limit, base, perm, len, Least(len), Greatest(len))
    requires forall n :: 0 <= n < MAX_CODE_LEN && !(Least(len) <= n <= Greatest(len)) ==> limit[n] == 0
    ensures forall n :: 0 <= n && Least(len) <= n <= 20 ==> limit[n] == LimitAt(len, n)
  {
    hide Rank, Occ, Below, First, Least, Greatest;
  }

  lemma BasesAgree(limit: seq<int>, base: seq<int>, perm: seq<int>, len: seq<int>)
    requires |limit| == |base| == MAX_CODE_LEN && 1 <= Least(len) <= Greatest(len) <= 20
    requires Tables(limit, base, perm, len, Least(len), Greatest(len))
    requires forall n :: Greatest(len) < n < MAX_CODE_LEN ==> base[n] == Below(len, |len|, n)
    ensures forall n :: 0 <= n && Least(len) <= n <= 20 ==> base[n] == BaseAt(len, n)
  {
    hide Rank, Occ, Below, First, Least, Greatest;
  }

  lemma PermAgrees(limit: seq<int>, base: seq<int>, perm: seq<int>, len: seq<int>)
    requires |limit| == |base| == MAX_CODE_LEN && Tables(limit, base, perm, len, Least(len), Greatest(len))
    ensures |perm| >= |len| && forall r :: 0 <= r < |len| ==> 0 <= SymbolAt(len, r, 0) < |len| && perm[r] == SymbolAt(len, r, 0)
  {
    forall r | 0 <= r < |len| ensures 0 <= SymbolAt(len, r, 0) < |len| && perm[r] == SymbolAt(len, r, 0) {
      var i := RowOf(len, r);
      RankFound(len, i, 0);
      hide Rank, Occ, Below, First, SymbolAt, Least, Greatest;
      assert perm[Rank(len, i)] == i;
    }
  }

  /** The tables of all groups are built: the block's symbols can be read. */
  lemma BlockStarts(v: View, b: Body, v': View)
    requires ReadingLengths(v, b, |b.lens|) && GoodBody(b, |b.lens|)
    requires |v'.tables| == MAX_GROUPS && forall k :: 0 <= k < |b.lens| ==> TableIs(v'.tables[k], v.len[k][..v.x.alphaSize])
    requires v' == v.(tables := v'.tables, mtf := v'.mtf, column := v'.column, x := v'.x)
    requires v'.x == v.x.(eob := v.nInUse + 1, nblockMAX := 100000 * v.level, groupNo := -1, groupPos := 0, nblock := 0)
    ensures InBlock(v', b)
  {
    hide Used, TableIs, GoodLengths;
    forall k | 0 <= k < |b.lens| ensures TableIs(v'.tables[k], b.lens[k]) {
      assert b.lens[k] == v.len[k][..v.x.alphaSize];
    }
  }

  // ---------- symbols ----------

  /** The run counters matter only inside a run. */
  lemma BlockKept(v: View, b: Body, v': View)
    requires InBlock(v, b) && v' == v.(state := v'.state, x := v'.x, mtf := v'.mtf, column := v'.column)
    requires v'.x.eob == v.x.eob && v'.x.nblockMAX == v.x.nblockMAX && v'.x.nSelectors == v.x.nSelectors && v'.x.alphaSize == v.x.alphaSize
    ensures InBlock(v', b)
  {
    hide Used, TableIs, GoodBody;
  }

  /** The table of the next symbol is chosen. */
  lemma GroupChosen(v: View, b: Body, groupNo: int)
    requires InBlock(v, b) && 0 <= groupNo < |b.selector| && v.x.groupNo == groupNo
    requires v.x.gSel == v.x.gLimit == v.x.gBase == v.x.gPerm == v.selector[groupNo]
    requires 0 <= v.x.gSel < |v.tables| ==> v.x.gMinlen == v.tables[v.x.gSel].minLen
    ensures InGroup(v, b, groupNo)
  {
    hide Used, Least, GoodLengths;
    assert TableIs(v.tables[b.selector[groupNo]], TableOf(b, groupNo));
  }

  lemma GroupKept(v: View, b: Body, groupNo: int, v': View)
    requires InGroup(v, b, groupNo) && v'.x.groupNo == v.x.groupNo && v'.x.gSel == v.x.gSel && v'.x.gLimit == v.x.gLimit
    requires v'.x.gBase == v.x.gBase && v'.x.gPerm == v.x.gPerm && v'.x.gMinlen == v.x.gMinlen
    ensures InGroup(v', b, groupNo)
  {
    hide GoodBody, Least;
  }

  lemma GroupFacts(v: View, b: Body, groupNo: int)
    requires InGroup(v, b, groupNo)
    ensures GoodBody(b, |b.lens|) && 0 <= groupNo < |b.selector| && v.x.groupNo == groupNo && v.x.gMinlen == Least(TableOf(b, groupNo))
  {
  }

  lemma RunsKept(v: View, runs: Runs, v': View)
    requires RunsAre(v, runs, RunLabel(v.state)) && RunLabel(v'.state) == RunLabel(v.state)
    requires v' == v.(state := v'.state, x := v'.x) && v'.x.nblock == v.x.nblock && v'.x.es == v.x.es && v'.x.n == v.x.n
    ensures RunsAre(v', runs, RunLabel(v'.state))
  {
  }

  lemma PlaceFacts(b: Body, groupNo: int, groupPos: int, runs: Runs)
    requires InSymbols(b, groupNo, groupPos, runs)
    ensures GoodBody(b, |b.lens|) && 0 <= groupNo < |b.selector| && 0 <= groupPos < GROUP_SIZE && |b.inUse| == 256 && |runs.mtf| == 256
  {
  }

  lemma SymbolFacts(v: View, b: Body, runs: Runs, inRun: bool)
    requires InBlock(v, b) && RunsAre(v, runs, inRun) && GoodBody(b, |b.lens|)
    ensures |b.inUse| == |runs.mtf| == 256 && runs.es >= -1 && b.h.level == v.level && v.x.nblock == |runs.l| && v.column == runs.l
    ensures !inRun ==> runs.es == -1 && runs.n == 1
  {
    hide Used, TablesAre;
  }

  lemma CodeKept(v: View, b: Body, runs: Runs, v': View)
    requires InBlock(v, b) && InGroup(v, b, v.x.groupNo) && RunsAre(v, runs, RunLabel(v.state)) && RunLabel(v'.state) == RunLabel(v.state)
    requires v' == v.(state := v'.state, x := v.x.(zn := v'.x.zn, nextSym := v'.x.nextSym))
    ensures InBlock(v', b) && InGroup(v', b, v'.x.groupNo) && RunsAre(v', runs, RunLabel(v'.state))
  {
    BlockKept(v, b, v');
    GroupKept(v, b, v.x.groupNo, v');
    RunsKept(v, runs, v');
    hide InBlock, InGroup, RunsAre;
  }

  /** Reading bits of a code: the window changes, all else stays. */
  lemma WindowReady(v: View, st: State, v': View)
    requires (st.CodeStart? || st.CodeMore?) && Matches(v, st) && Sane(st) && Sized(st)
    requires v' == v.(x := v.x.(zj := v'.x.zj, zvec := v'.x.zvec))
    ensures var x := v'.x;
      && X_MTF_1 <= v'.state <= X_MTF_6 && InBlock(v', st.b) && InGroup(v', st.b, x.groupNo) && LevelOk(v'.level)
      && st.groupNo == x.groupNo && st.groupPos == x.groupPos && InSymbols(st.b, x.groupNo, x.groupPos, st.runs)
      && RunsAre(v', st.runs, RunLabel(v'.state)) && x.gMinlen <= x.zn && 1 <= x.zn <= 21
      && (st.CodeStart? ==> x.zn == Least(TableOf(st.b, st.groupNo))) && (st.CodeMore? ==> x.zn == st.zn && v.x.zvec == st.zvec)
  {
    SymbolMatches(v, st);
    GroupFacts(v, st.b, st.groupNo);
    LeastGood(TableOf(st.b, st.groupNo), AlphaSize(st.b.inUse));
    BlockNumbers(v, st.b);
    BlockKept(v, st.b, v');
    GroupKept(v, st.b, st.groupNo, v');
    RunsKept(v, st.runs, v');
    hide Matches, InBlock, InGroup, RunsAre, Used, Least, GoodBody;
  }

  lemma TryTooLong(b: Body, groupNo: int, groupPos: int, runs: Runs, zn: int, zvec: int)
    requires InSymbols(b, groupNo, groupPos, runs) && 20 < zn <= 21
    ensures TryCode(b, groupNo, groupPos, runs, zn, zvec) == DataError
  {
  }

  lemma SelectorRange(v: View, b: Body, groupNo: int)
    requires InBlock(v, b)
    ensures v.x.nSelectors == |b.selector| <= |v.selector| && |v.tables| == MAX_GROUPS
    ensures 0 <= groupNo < |b.selector| ==> 0 <= v.selector[groupNo] < |b.lens| <= MAX_GROUPS
  {
    hide Used, TableIs, GoodLengths;
  }

  lemma AnswerBad(v: View)
    ensures Answers(BadData, v, DataError)
  {
  }

  lemma AnswerStart(v: View, b: Body, groupNo: int, groupPos: int, runs: Runs)
    requires StartLabel(v.state) && InBlock(v, b) && InGroup(v, b, groupNo) && v.x.groupPos == groupPos
    requires v.x.zn == v.x.gMinlen && RunsAre(v, runs, RunLabel(v.state))
    ensures Answers(Going, v, CodeStart(b, groupNo, groupPos, runs))
  {
    hide InBlock, InGroup, RunsAre;
  }

  lemma AnswerMore(v: View, b: Body, groupNo: int, groupPos: int, runs: Runs, zn: int, zvec: int)
    requires MoreLabel(v.state) && InBlock(v, b) && InGroup(v, b, groupNo) && v.x.groupPos == groupPos
    requires v.x.gMinlen <= v.x.zn == zn && v.x.zvec == zvec && RunsAre(v, runs, RunLabel(v.state))
    ensures Answers(Going, v, CodeMore(b, groupNo, groupPos, runs, zn, zvec))
  {
    hide InBlock, InGroup, RunsAre;
  }

  /** Where the decoding loop stands after one look at the tables. */
  lemma LookUp(v: View, b: Body, groupNo: int, groupPos: int, runs: Runs, zn: int, zvec: int)
    requires InBlock(v, b) && InSymbols(b, groupNo, groupPos, runs) && InGroup(v, b, groupNo) && 1 <= zn <= 20
    requires Least(TableOf(b, groupNo)) <= zn
    ensures 0 <= v.x.gLimit < |v.tables| == MAX_GROUPS && v.x.gBase == v.x.gLimit == v.x.gPerm
    ensures var tb := v.tables[v.x.gLimit];
      && |tb.limit| == |tb.base| == MAX_CODE_LEN && |tb.perm| == MAX_ALPHA_SIZE
      && TryCode(b, groupNo, groupPos, runs, zn, zvec) ==
         if zvec > tb.limit[zn] then CodeMore(b, groupNo, groupPos, runs, zn + 1, zvec)
         else
           var r := zvec - tb.base[zn];
           if r < 0 || r >= v.x.alphaSize || !(0 <= tb.perm[r] < v.x.alphaSize) then DataError
           else AfterSymbol(b, groupNo, groupPos, runs, tb.perm[r])
    ensures var r := zvec - v.tables[v.x.gLimit].base[zn]; 0 <= r < v.x.alphaSize ==> 0 <= v.tables[v.x.gLimit].perm[r] < v.x.alphaSize
    ensures v.x.alphaSize <= MAX_ALPHA_SIZE
  {
    hide AfterSymbol, LimitAt, BaseAt, SymbolAt, Least, Used;
    var len := TableOf(b, groupNo);
    assert TableIs(v.tables[b.selector[groupNo]], len);
  }

  /** Bytes in use stay at the front of the list. */
  lemma FrontInUse(y: seq<byte>, k: int, n: int)
    requires |y| == 256 && 0 <= k < n <= 256 && forall i :: 0 <= i < n ==> y[i] < n
    ensures forall i :: 0 <= i < n ==> Front(y, k)[i] < n
  {
  }

  lemma UnmapAt(inUse: seq<bool>, i: int)
    requires |inUse| == 256 && 0 <= i < |Used(inUse, 256)|
    ensures Unmap(inUse)[i] == Used(inUse, 256)[i]
  {
    hide Used;
  }

  /** The bytes that list entries at the front stand for. */
  lemma EntryByte(v: View, b: Body, i: int)
    requires InBlock(v, b) && 0 <= i < v.nInUse
    ensures |b.inUse| == 256 && v.nInUse <= |v.seqToUnseq| == 256 && v.seqToUnseq[i] == Unmap(b.inUse)[i]
  {
    UnmapAt(b.inUse, i);
    hide Used, Unmap, TablesAre, GoodBody;
    assert v.seqToUnseq[..v.nInUse][i] == v.seqToUnseq[i];
  }

  lemma BlockNumbers(v: View, b: Body)
    requires InBlock(v, b)
    ensures 1 <= v.nInUse <= 256 && v.x.alphaSize == v.nInUse + 2 == AlphaSize(b.inUse) && v.x.eob == v.nInUse + 1
    ensures v.x.nblockMAX == 100000 * v.level && b.h == Header(v.level, v.blockCRC, v.randomised, v.origPtr)
  {
    hide Used, TablesAre, GoodBody;
  }

  /** A run digit. */
  lemma AfterDigit(b: Body, groupNo: int, groupPos: int, runs: Runs, sym: int)
    requires InSymbols(b, groupNo, groupPos, runs) && 0 <= sym < AlphaSize(b.inUse) && (sym == RUN_A || sym == RUN_B)
    ensures AfterSymbol(b, groupNo, groupPos, runs, sym) ==
            if runs.n >= RUN_LIMIT then DataError
            else NextSymbol(b, groupNo, groupPos, runs.(es := runs.es + (sym + 1) * runs.n, n := runs.n * 2))
  {
    hide Used, NextSymbol, GoodBody;
  }

  /** The decoder when the run, if there was one, has been written. */
  ghost function Flushed(b: Body, runs: Runs): (r: Runs)
    requires |b.inUse| == 256 && |runs.mtf| == 256
    ensures |r.mtf| == 256
  {
    Runs(runs.mtf, -1, 1, runs.l + Copies(Unmap(b.inUse)[runs.mtf[0]], runs.es + 1))
  }

  /** Any other symbol: the run is written if there is room for it, then the block ends or an entry moves to the front. */
  lemma AfterOther(b: Body, groupNo: int, groupPos: int, runs: Runs, sym: int)
    requires InSymbols(b, groupNo, groupPos, runs) && 2 <= sym < AlphaSize(b.inUse) && runs.es >= -1
    ensures |b.inUse| == 256
    ensures AfterSymbol(b, groupNo, groupPos, runs, sym) ==
      if |runs.l| + runs.es + 1 > 100000 * b.h.level then DataError
      else AfterEnd(b, groupNo, groupPos, Flushed(b, runs), sym)
  {
    hide Used, NextSymbol, Unmap, Front, Copies;
  }

  /** Entry k is moved to the front and its byte written. */
  ghost function Moved(b: Body, r: Runs, k: int): Runs
    requires |b.inUse| == 256 && |r.mtf| == 256 && 0 <= k < 256
  {
    Runs(Front(r.mtf, k), -1, 1, r.l + [Unmap(b.inUse)[r.mtf[k]]])
  }

  /** Once the run is out: the end of the block, or a list position. */
  ghost function AfterEnd(b: Body, groupNo: int, groupPos: int, r: Runs, sym: int): State
    requires |b.inUse| == 256 && |r.mtf| == 256 && 2 <= sym < AlphaSize(b.inUse)
    requires GoodBody(b, |b.lens|) && 0 <= groupNo < |b.selector| && 0 <= groupPos < GROUP_SIZE
  {
    if sym == AlphaSize(b.inUse) - 1 then
      if b.h.origPtr < 0 || b.h.origPtr >= |r.l| then DataError else BlockDone(b.h, r.l)
    else if |r.l| >= 100000 * b.h.level then DataError
    else NextSymbol(b, groupNo, groupPos, Moved(b, r, sym - 1))
  }

  lemma NotInRun(b: Body, runs: Runs)
    requires |b.inUse| == 256 && |runs.mtf| == 256 && runs.es == -1 && runs.n == 1
    ensures Flushed(b, runs) == runs
  {
    assert runs.l + [] == runs.l;
  }

  lemma AnswerBlock(v: View, h: Header, l: seq<byte>)
    requires v.state == X_OUTPUT && HeaderIs(v, h) && v.column == l && v.x.nblock == |l|
    ensures Answers(BlockReady, v, BlockDone(h, l))
  {
  }

  /** The bits held back are no whole byte, or too few for the field that is waited for. */
  ghost predicate Lean(live: int, st: State) {
    live < 8 || (Sane(st) && !Halted(st) && live < Need(st))
  }
}
