/**
 * The resumable block parser.  Each state is one suspension point of the parser and carries exactly what is live
 * there; it waits for a number of bits and moves on with their value.
 */
module DecodeMachine {
  import opened Bits
  import opened Rotations
  import opened Counting
  import opened CanonicalCodes
  import opened MoveToFront
  import opened GenerateMtf

  const GROUP_SIZE := 50
  const BLOCK_MAGIC: seq<int> := [0x31, 0x41, 0x59, 0x26, 0x53, 0x59]
  const END_MAGIC: seq<int> := [0x17, 0x72, 0x45, 0x38, 0x50, 0x90]
  const STREAM_MAGIC: seq<int> := [0x42, 0x5a, 0x68]
  const HDR_0 := 0x30

  datatype Header = Header(level: int, crc: int, randomised: bool, origPtr: int)

  /** What is fixed once the tables have been read. */
  datatype Body = Body(h: Header, inUse: seq<bool>, selector: seq<int>, lens: seq<seq<int>>)

  datatype State =
    | Magic(k: nat)
    | BlockHeader(level: int, k: nat)
    | BlockCrc(level: int, k: nat, crc: int)
    | RandBit(level: int, crc: int)
    | OrigPtr(level: int, crc: int, randomised: bool, k: nat, orig: int)
    | Mapping16(h: Header, used16: seq<bool>)
    | Mapping(h: Header, used16: seq<bool>, inUse: seq<bool>)
    | GroupCount(h: Header, inUse: seq<bool>)
    | SelectorCount(h: Header, inUse: seq<bool>, nGroups: int)
    | Selector(h: Header, inUse: seq<bool>, nGroups: int, nSelectors: int, mtf: seq<int>, j: int)
    | FirstLength(b: Body, nGroups: int)
    | LengthMore(b: Body, nGroups: int, cur: seq<int>, curr: int)
    | LengthSign(b: Body, nGroups: int, cur: seq<int>, curr: int)
    | CodeStart(b: Body, groupNo: int, groupPos: int, runs: Runs)
    | CodeMore(b: Body, groupNo: int, groupPos: int, runs: Runs, zn: int, zvec: int)
    | BlockDone(h: Header, l: seq<byte>)
    | EndHeader(level: int, k: nat)
    | CombinedCrc(k: nat, crc: int)
    | StreamEnd(crc: int)
    | DataError
    | MagicError

  // ---------- the tables as functions of the lengths ----------

  function Least(len: seq<int>): (m: int)
    ensures forall i :: 0 <= i < |len| ==> m <= len[i]
    ensures m == 32 || m in len
  {
    if len == [] then 32
    else
      var m := Least(len[..|len| - 1]);
      if len[|len| - 1] < m then len[|len| - 1] else m
  }

  function Greatest(len: seq<int>): (m: int)
    ensures forall i :: 0 <= i < |len| ==> len[i] <= m
    ensures m == 0 || m in len
  {
    if len == [] then 0
    else
      var m := Greatest(len[..|len| - 1]);
      if len[|len| - 1] > m then len[|len| - 1] else m
  }

  function LimitAt(len: seq<int>, n: nat): int {
    if Least(len) <= n <= Greatest(len) then First(len, n) + Occ(len, |len|, n) - 1 else 0
  }

  function BaseAt(len: seq<int>, n: nat): int {
    if n <= Greatest(len) then First(len, n) - Below(len, |len|, n) else Below(len, |len|, n)
  }

  /** The symbol of rank r by code length. */
  function SymbolAt(len: seq<int>, r: int, i: nat): (sym: int)
    requires i <= |len|
    ensures 0 <= sym <= |len|
    decreases |len| - i
  {
    if i == |len| then 0 else if Rank(len, i) == r then i else SymbolAt(len, r, i + 1)
  }

  // ---------- well-formed states ----------

  predicate GoodLengths(len: seq<int>, alpha: int) {
    |len| == alpha && forall i :: 0 <= i < |len| ==> 1 <= len[i] <= 20
  }

  function AlphaSize(inUse: seq<bool>): int
    requires |inUse| == 256
  {
    |Used(inUse, 256)| + 2
  }

  predicate GoodMap(inUse: seq<bool>) {
    |inUse| == 256 && |Used(inUse, 256)| > 0
  }

  /** A body whose selectors refer to nGroups tables, some of which have been read. */
  predicate GoodBody(b: Body, nGroups: int) {
    && GoodMap(b.inUse) && 2 <= nGroups <= 6 && |b.lens| <= nGroups && |b.selector| >= 1
    && (forall i :: 0 <= i < |b.selector| ==> 0 <= b.selector[i] < nGroups)
    && (forall t :: 0 <= t < |b.lens| ==> GoodLengths(b.lens[t], AlphaSize(b.inUse)))
  }

  predicate Sane(st: State) {
    match st
    case Magic(k) => k <= 3
    case BlockHeader(_, k) => k <= 5
    case BlockCrc(_, k, crc) => k <= 3 && crc >= 0
    case OrigPtr(_, _, _, k, orig) => k <= 2 && orig >= 0
    case Mapping16(_, used16) => |used16| < 16
    case Mapping(_, used16, inUse) => |used16| == 16 && |inUse| < 256
    case GroupCount(_, inUse) => GoodMap(inUse)
    case SelectorCount(_, inUse, nGroups) => GoodMap(inUse) && 2 <= nGroups <= 6
    case Selector(_, inUse, nGroups, nSelectors, mtf, j) =>
      GoodMap(inUse) && 2 <= nGroups <= 6 && 0 <= j < nGroups && |mtf| < nSelectors && forall i :: 0 <= i < |mtf| ==> 0 <= mtf[i] < nGroups
    case FirstLength(b, nGroups) => GoodBody(b, nGroups) && |b.lens| < nGroups
    case LengthMore(b, nGroups, cur, curr) =>
      GoodBody(b, nGroups) && |b.lens| < nGroups && |cur| < AlphaSize(b.inUse) && GoodLengths(cur, |cur|) && 1 <= curr <= 20
    case LengthSign(b, nGroups, cur, curr) =>
      GoodBody(b, nGroups) && |b.lens| < nGroups && |cur| < AlphaSize(b.inUse) && GoodLengths(cur, |cur|) && 1 <= curr <= 20
    case CodeStart(b, groupNo, groupPos, runs) => InSymbols(b, groupNo, groupPos, runs)
    case CodeMore(b, groupNo, groupPos, runs, zn, zvec) => InSymbols(b, groupNo, groupPos, runs) && 1 <= zn <= 21
    case EndHeader(_, k) => k <= 5
    case CombinedCrc(k, crc) => k <= 3 && crc >= 0
    case _ => true
  }

  predicate InSymbols(b: Body, groupNo: int, groupPos: int, runs: Runs) {
    && GoodBody(b, |b.lens|) && 0 <= groupNo < |b.selector|
    && 0 <= groupPos < GROUP_SIZE && |runs.mtf| == 256
  }

  predicate Halted(st: State) {
    st.BlockDone? || st.StreamEnd? || st.DataError? || st.MagicError?
  }

  /** The lengths of the table in use. */
  function TableOf(b: Body, groupNo: int): (len: seq<int>)
    requires GoodBody(b, |b.lens|) && 0 <= groupNo < |b.selector|
    ensures GoodLengths(len, AlphaSize(b.inUse))
  {
    b.lens[b.selector[groupNo]]
  }

  lemma LeastGood(len: seq<int>, alpha: int)
    requires GoodLengths(len, alpha) && alpha > 0
    ensures 1 <= Least(len) <= Greatest(len) <= 20
  {
    assert Least(len) <= len[0] <= Greatest(len);
  }

  /** How many bits the state waits for. */
  function Need(st: State): (n: int)
    requires Sane(st) && !Halted(st)
    ensures 1 <= n <= 24
  {
    match st
    case RandBit(_, _) => 1
    case Mapping16(_, _) => 1
    case Mapping(_, _, _) => 1
    case GroupCount(_, _) => 3
    case SelectorCount(_, _, _) => 15
    case Selector(_, _, _, _, _, _) => 1
    case FirstLength(_, _) => 5
    case LengthMore(_, _, _, _) => 1
    case LengthSign(_, _, _, _) => 1
    case CodeStart(b, groupNo, _, _) =>
      LeastGood(TableOf(b, groupNo), AlphaSize(b.inUse));
      Least(TableOf(b, groupNo))
    case CodeMore(_, _, _, _, _, _) => 1
    case _ => 8
  }

  // ---------- moving on ----------

  /** One byte of a fixed sequence: on, or not. */
  function MagicByte(v: int, expected: int, next: State): State {
    if v == expected then next else DataError
  }

  /** The mapping goes on at the next group in use; groups not in use have no bits. */
  function Settle(used16: seq<bool>, inUse: seq<bool>): (r: seq<bool>)
    requires |used16| == 16 && |inUse| <= 256
    ensures |inUse| <= |r| <= 256 && r[..|inUse|] == inUse
    decreases 256 - |inUse|
  {
    if |inUse| < 256 && !used16[|inUse| / 16] then Settle(used16, inUse + [false]) else inUse
  }

  function AfterMapping(h: Header, used16: seq<bool>, inUse0: seq<bool>): (st: State)
    requires |used16| == 16 && |inUse0| <= 256
    ensures Sane(st)
  {
    var inUse := Settle(used16, inUse0);
    if |inUse| < 256 then Mapping(h, used16, inUse)
    else if Used(inUse, 256) == [] then DataError
    else GroupCount(h, inUse)
  }

  /** Undoing the move-to-front coding of the selectors. */
  function Unselect(pos: seq<int>, mtf: seq<int>): (sel: seq<int>)
    requires forall i :: 0 <= i < |mtf| ==> 0 <= mtf[i] < |pos|
    ensures |sel| == |mtf|
    ensures forall x :: 0 <= x < |sel| ==> sel[x] in pos
    decreases |mtf|
  {
    if mtf == [] then []
    else
      FrontKeeps(pos, mtf[0]);
      [pos[mtf[0]]] + Unselect(Front(pos, mtf[0]), mtf[1..])
  }

  lemma FrontKeeps(pos: seq<int>, k: int)
    requires 0 <= k < |pos|
    ensures forall v :: v in Front(pos, k) ==> v in pos
  {
  }

  function AfterSelector(h: Header, inUse: seq<bool>, nGroups: int, nSelectors: int, mtf: seq<int>): (st: State)
    requires GoodMap(inUse) && 2 <= nGroups <= 6 && 1 <= |mtf| <= nSelectors
    requires forall i :: 0 <= i < |mtf| ==> 0 <= mtf[i] < nGroups
    ensures Sane(st)
  {
    if |mtf| < nSelectors then Selector(h, inUse, nGroups, nSelectors, mtf, 0)
    else
      var sel := Unselect(Numbers(nGroups), mtf);
      assert forall i :: 0 <= i < |sel| ==> sel[i] in Numbers(nGroups);
      FirstLength(Body(h, inUse, sel, []), nGroups)
  }

  /** The range check at the head of the length loop. */
  function CheckLength(b: Body, nGroups: int, cur: seq<int>, curr: int): (st: State)
    requires GoodBody(b, nGroups) && |b.lens| < nGroups && |cur| < AlphaSize(b.inUse) && GoodLengths(cur, |cur|)
    ensures Sane(st)
  {
    if curr < 1 || curr > 20 then DataError else LengthMore(b, nGroups, cur, curr)
  }

  /** A length is complete. */
  function AfterLength(b: Body, nGroups: int, cur: seq<int>, curr: int): (st: State)
    requires GoodBody(b, nGroups) && |b.lens| < nGroups && 1 <= |cur| <= AlphaSize(b.inUse) && GoodLengths(cur, |cur|)
    requires 1 <= curr <= 20
    ensures Sane(st)
  {
    if |cur| < AlphaSize(b.inUse) then CheckLength(b, nGroups, cur, curr)
    else
      var b' := b.(lens := b.lens + [cur]);
      if |b'.lens| < nGroups then FirstLength(b', nGroups)
      else NextSymbol(b', -1, 0, Runs(Numbers(256), -1, 1, []))
  }

  /** The table of the next symbol: a new one every fifty symbols. */
  function NextSymbol(b: Body, groupNo: int, groupPos: int, runs: Runs): (st: State)
    requires GoodBody(b, |b.lens|) && -1 <= groupNo < |b.selector| && 0 <= groupPos < GROUP_SIZE && |runs.mtf| == 256
    requires groupPos > 0 ==> groupNo >= 0
    ensures Sane(st)
  {
    if groupPos > 0 then CodeStart(b, groupNo, groupPos - 1, runs)
    else if groupNo + 1 >= |b.selector| then DataError
    else CodeStart(b, groupNo + 1, GROUP_SIZE - 1, runs)
  }

  /** The bytes in use, padded to a full table. */
  function Unmap(inUse: seq<bool>): (u: seq<byte>)
    requires |inUse| == 256
    ensures |u| == 256 && Used(inUse, 256) <= u
  {
    Used(inUse, 256) + seq(256 - |Used(inUse, 256)|, _ => 0)
  }

  function AfterSymbol(b: Body, groupNo: int, groupPos: int, runs: Runs, sym: int): (st: State)
    requires InSymbols(b, groupNo, groupPos, runs) && 0 <= sym < AlphaSize(b.inUse)
    ensures Sane(st)
  {
    match Feed(runs, sym, AlphaSize(b.inUse) - 1, Unmap(b.inUse), 100000 * b.h.level)
    case More(r) => NextSymbol(b, groupNo, groupPos, r)
    case Ended(l) => if b.h.origPtr < 0 || b.h.origPtr >= |l| then DataError else BlockDone(b.h, l)
    case BadRun => DataError
  }

  /** Is the window zvec of zn bits a code word?  A window past the limits of the table is an error here. */
  function TryCode(b: Body, groupNo: int, groupPos: int, runs: Runs, zn: int, zvec: int): (st: State)
    requires InSymbols(b, groupNo, groupPos, runs) && 1 <= zn <= 21
    ensures Sane(st)
  {
    var len := TableOf(b, groupNo);
    if zn > 20 then DataError
    else if zvec <= LimitAt(len, zn) then
      var r := zvec - BaseAt(len, zn);
      if r < 0 || r >= |len| || SymbolAt(len, r, 0) >= |len| then DataError
      else AfterSymbol(b, groupNo, groupPos, runs, SymbolAt(len, r, 0))
    else CodeMore(b, groupNo, groupPos, runs, zn + 1, zvec)
  }

  function Bit(v: int): bool { v == 1 }

  function AdvanceHeader(st: State, v: int): (st': State)
    requires Sane(st) && !Halted(st) && v >= 0
    ensures Sane(st')
  {
    match st
    case Magic(k) =>
      if k < 3 then (if v == STREAM_MAGIC[k] then Magic(k + 1) else MagicError)
      else if v < HDR_0 + 1 || v > HDR_0 + 9 then MagicError
      else BlockHeader(v - HDR_0, 0)
    case BlockHeader(level, k) =>
      if k == 0 && v == END_MAGIC[0] then EndHeader(level, 1)
      else MagicByte(v, BLOCK_MAGIC[k], if k < 5 then BlockHeader(level, k + 1) else BlockCrc(level, 0, 0))
    case BlockCrc(level, k, crc) =>
      if k < 3 then BlockCrc(level, k + 1, crc * 256 + v) else RandBit(level, crc * 256 + v)
    case RandBit(level, crc) => OrigPtr(level, crc, Bit(v), 0, 0)
    case OrigPtr(level, crc, randomised, k, orig) =>
      if k < 2 then OrigPtr(level, crc, randomised, k + 1, orig * 256 + v)
      else if orig * 256 + v > 10 + 100000 * level then DataError
      else Mapping16(Header(level, crc, randomised, orig * 256 + v), [])
    case EndHeader(level, k) =>
      MagicByte(v, END_MAGIC[k], if k < 5 then EndHeader(level, k + 1) else CombinedCrc(0, 0))
    case CombinedCrc(k, crc) =>
      if k < 3 then CombinedCrc(k + 1, crc * 256 + v) else StreamEnd(crc * 256 + v)
    case _ => DataError
  }

  function AdvanceTables(st: State, v: int): (st': State)
    requires Sane(st) && !Halted(st) && v >= 0
    ensures Sane(st')
  {
    match st
    case Mapping16(h, used16) =>
      if |used16| < 15 then Mapping16(h, used16 + [Bit(v)]) else AfterMapping(h, used16 + [Bit(v)], [])
    case Mapping(h, used16, inUse) => AfterMapping(h, used16, inUse + [Bit(v)])
    case GroupCount(h, inUse) => if v < 2 || v > 6 then DataError else SelectorCount(h, inUse, v)
    case SelectorCount(h, inUse, nGroups) => if v < 1 then DataError else Selector(h, inUse, nGroups, v, [], 0)
    case Selector(h, inUse, nGroups, nSelectors, mtf, j) =>
      if v == 0 then AfterSelector(h, inUse, nGroups, nSelectors, mtf + [j])
      else if j + 1 >= nGroups then DataError
      else Selector(h, inUse, nGroups, nSelectors, mtf, j + 1)
    case FirstLength(b, nGroups) => CheckLength(b, nGroups, [], v)
    case LengthMore(b, nGroups, cur, curr) =>
      if v == 0 then AfterLength(b, nGroups, cur + [curr], curr) else LengthSign(b, nGroups, cur, curr)
    case LengthSign(b, nGroups, cur, curr) => CheckLength(b, nGroups, cur, if v == 0 then curr + 1 else curr - 1)
    case _ => DataError
  }

  /** What the state does with the bits it waited for. */
  function Advance(st: State, v: int): (st': State)
    requires Sane(st) && !Halted(st) && v >= 0
    ensures Sane(st')
  {
    if st.CodeStart? then
      LeastGood(TableOf(st.b, st.groupNo), AlphaSize(st.b.inUse));
      TryCode(st.b, st.groupNo, st.groupPos, st.runs, Least(TableOf(st.b, st.groupNo)), v)
    else if st.CodeMore? then TryCode(st.b, st.groupNo, st.groupPos, st.runs, st.zn, st.zvec * 2 + v)
    else if st.Magic? || st.BlockHeader? || st.BlockCrc? || st.RandBit? || st.OrigPtr? || st.EndHeader? || st.CombinedCrc?
    then AdvanceHeader(st, v)
    else AdvanceTables(st, v)
  }

  // ---------- runs ----------

  /** A suspended parser and the bits it has been given but not used. */
  datatype Paused = Paused(st: State, bits: seq<bool>)

  /** Runs until a block or the stream is complete, an error shows, or more bits are needed. */
  ghost function Exec(st: State, bits: seq<bool>): (p: Paused)
    requires Sane(st)
    ensures Sane(p.st)
    ensures Halted(p.st) || |p.bits| < Need(p.st)
    decreases |bits|
  {
    if Halted(st) || |bits| < Need(st) then Paused(st, bits)
    else
      Exec(Advance(st, Value(bits[..Need(st)])), bits[Need(st)..])
  }

  /**
   * Resumability: stopping for lack of input at any point and going on later with the saved state and the unused
   * bits gives the same as having had all the bits at once.
   */
  lemma {:induction false} ExecResumes(st: State, a: seq<bool>, c: seq<bool>)
    requires Sane(st)
    ensures Exec(st, a + c) == Exec(Exec(st, a).st, Exec(st, a).bits + c)
    decreases |a|
  {
    if !Halted(st) && |a| >= Need(st) {
      var n := Need(st);
      hide Need, Advance, Sane;
      assert (a + c)[..n] == a[..n] && (a + c)[n..] == a[n..] + c;
      ExecResumes(Advance(st, Value(a[..n])), a[n..], c);
    }
  }

  lemma ExecTurn(st: State, bits: seq<bool>)
    requires Sane(st) && !Halted(st)
    ensures |bits| < Need(st) ==> Exec(st, bits) == Paused(st, bits)
    ensures |bits| >= Need(st) ==> 0 <= Value(bits[..Need(st)]) < Pow2(Need(st))
    ensures |bits| >= Need(st) ==> Exec(st, bits) == Exec(Advance(st, Value(bits[..Need(st)])), bits[Need(st)..])
    ensures st.SelectorCount? ==> Need(st) == 15 && Pow2(Need(st)) == 32768
  {
    if |bits| >= Need(st) { ValueBound(bits[..Need(st)]); }
    assert Pow2(15) == 32768;
  }

  lemma ExecStops(st: State, bits: seq<bool>)
    requires Sane(st)
    ensures Halted(st) || |bits| < Need(st) ==> Exec(st, bits) == Paused(st, bits)
  {
  }

  /** Reading one field. */
  lemma ExecField(st: State, v: int, rest: seq<bool>)
    requires Sane(st) && !Halted(st) && 0 <= v < Pow2(Need(st))
    ensures Exec(st, ToBits(v, Need(st)) + rest) == Exec(Advance(st, v), rest)
  {
    var n := Need(st);
    ValueOfBits(v, n);
    hide Need, Advance, Sane, ToBits;
    var bits := ToBits(v, n) + rest;
    assert bits[..n] == ToBits(v, n) && bits[n..] == rest;
  }
}
