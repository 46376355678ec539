/** Code words parsed back to symbols, and a whole block parsed back. */
module SymbolRoundTrip {
  import opened Permutations
  import opened Bits
  import opened BitIO
  import opened Rotations
  import opened Counting
  import opened CanonicalCodes
  import opened MoveToFront
  import opened GenerateMtf
  import opened DecodeMachine
  import opened BlockFormat
  import opened FormatRoundTrip
  import opened TableRoundTrip

  // ---------- one code word ----------

  ghost function LimitTable(len: seq<int>): (t: seq<int>) {
    seq(MAX_CODE_LEN, n requires 0 <= n => LimitAt(len, n))
  }

  ghost function BaseTable(len: seq<int>): (t: seq<int>) {
    seq(MAX_CODE_LEN, n requires 0 <= n => BaseAt(len, n))
  }

  ghost function PermTable(len: seq<int>): (t: seq<int>) {
    seq(|len|, r => SymbolAt(len, r, 0))
  }

  /** The machine's tables are the decoding tables of the lengths. */
  lemma MachineTables(len: seq<int>, alpha: int)
    requires GoodLengths(len, alpha) && alpha > 0
    ensures Tables(LimitTable(len), BaseTable(len), PermTable(len), len, Least(len), Greatest(len))
  {
    LeastGood(len, alpha);
    hide First, Occ, Below, Rank, LimitTable, BaseTable, PermTable, SymbolAt, LimitAt, BaseAt;
    MachineLimits(len);
    MachineBases(len);
    MachinePerm(len);
  }

  lemma MachineLimits(len: seq<int>)
    ensures |LimitTable(len)| == MAX_CODE_LEN && forall n :: 0 <= n < MAX_CODE_LEN ==> LimitTable(len)[n] == LimitAt(len, n)
    ensures forall n :: 0 <= n && Least(len) <= n <= Greatest(len) ==> LimitAt(len, n) == First(len, n) + Occ(len, |len|, n) - 1
  {
    hide First, Occ;
  }

  lemma MachineBases(len: seq<int>)
    ensures |BaseTable(len)| == MAX_CODE_LEN && forall n :: 0 <= n < MAX_CODE_LEN ==> BaseTable(len)[n] == BaseAt(len, n)
    ensures forall n :: 0 <= n <= Greatest(len) ==> BaseAt(len, n) == First(len, n) - Below(len, |len|, n)
  {
    hide First, Below;
  }

  lemma MachinePerm(len: seq<int>)
    ensures |PermTable(len)| == |len| && forall r :: 0 <= r < |len| ==> PermTable(len)[r] == SymbolAt(len, r, 0)
    ensures forall i :: 0 <= i < |len| ==> 0 <= Rank(len, i) < |len| && PermTable(len)[Rank(len, i)] == i
  {
    hide Rank;
    forall i | 0 <= i < |len| ensures 0 <= Rank(len, i) < |len| && SymbolAt(len, Rank(len, i), 0) == i {
      RankFound(len, i, 0);
    }
  }

  lemma {:induction false} RankFound(len: seq<int>, i: int, k: nat)
    requires k <= i < |len|
    ensures 0 <= Rank(len, i) < |len| && SymbolAt(len, Rank(len, i), k) == i
    decreases i - k
  {
    assert 0 <= Rank(len, i) < |len|;
    hide Rank;
    if k < i {
      if Rank(len, k) == Rank(len, i) { RankInjective(len, k, i); }
      RankFound(len, i, k + 1);
    }
  }

  /** The decoding loop finds nothing before the last of these bits, and then this symbol. */
  ghost predicate Decides(len: seq<int>, w: seq<bool>, sym: int) {
    && 1 <= Least(len) <= |w| <= 20 && 0 <= sym < |len|
    && (forall n :: 0 <= n && Least(len) <= n < |w| ==> Value(w[..n]) > LimitAt(len, n))
    && Value(w) <= LimitAt(len, |w|) && 0 <= Value(w) - BaseAt(len, |w|) < |len|
    && SymbolAt(len, Value(w) - BaseAt(len, |w|), 0) == sym
  }

  /** What the decoding loop sees of the word of symbol i. */
  lemma WordSeen(len: seq<int>, alpha: int, i: int)
    requires GoodLengths(len, alpha) && Decodable(len, 20) && 0 <= i < alpha
    ensures 1 <= Least(len) <= len[i] <= 20
    ensures forall n :: Least(len) <= n < len[i] ==> Value(Word(len, i)[..n]) > LimitAt(len, n)
    ensures var v := Value(Word(len, i));
      v <= LimitAt(len, len[i]) && 0 <= v - BaseAt(len, len[i]) < |len| && SymbolAt(len, v - BaseAt(len, len[i]), 0) == i
  {
    LeastGood(len, alpha);
    MachineTables(len, alpha);
    MachineLimits(len);
    MachineBases(len);
    MachinePerm(len);
    hide First, Occ, Below, Word, Tables, LimitTable, BaseTable, PermTable, LimitAt, BaseAt, SymbolAt;
    TablesDecode(LimitTable(len), BaseTable(len), PermTable(len), len, Least(len), Greatest(len), 20, i);
  }

  lemma WordInTables(len: seq<int>, alpha: int, i: int)
    requires GoodLengths(len, alpha) && Decodable(len, 20) && 0 <= i < alpha
    ensures Decides(len, Word(len, i), i)
  {
    WordSeen(len, alpha, i);
    hide Least, LimitAt, BaseAt, SymbolAt, Value, ToBits, CodeOf, Decodable;
  }

  /** From any window of the word that is still too short, the remaining bits lead to the symbol. */
  lemma {:induction false} WordRest(b: Body, groupNo: int, groupPos: int, runs: Runs, w: seq<bool>, sym: int, n: nat)
    requires InSymbols(b, groupNo, groupPos, runs) && 0 <= sym < AlphaSize(b.inUse)
    requires Decides(TableOf(b, groupNo), w, sym) && Least(TableOf(b, groupNo)) <= n <= |w|
    ensures 1 <= n <= |w| <= 20
    ensures Drives(TryCode(b, groupNo, groupPos, runs, n, Value(w[..n])), w[n..], AfterSymbol(b, groupNo, groupPos, runs, sym))
    decreases 20 - n
  {
    hide Drives, AfterSymbol, LimitAt, BaseAt, SymbolAt, Least, Decides, Value, GoodBody, TableOf, Used, TryCode, Sane, Need, Advance;
    BodyFacts(b);
    var len := TableOf(b, groupNo);
    WindowAt(len, w, sym, n);
    var v := Value(w[..n]);
    var next := AfterSymbol(b, groupNo, groupPos, runs, sym);
    if n < |w| {
      TryMore(b, groupNo, groupPos, runs, n, v);
      var st := CodeMore(b, groupNo, groupPos, runs, n + 1, v);
      MoreFacts(b, groupNo, groupPos, runs, n + 1, v, w[n]);
      WordRest(b, groupNo, groupPos, runs, w, sym, n + 1);
      DrivesBit(st, w[n]);
      OneBitMore(w, n);
      DrivesJoin(st, [w[n]], TryCode(b, groupNo, groupPos, runs, n + 1, Value(w[..n + 1])), w[n + 1..], next);
    } else {
      TryFound(b, groupNo, groupPos, runs, n, v, sym);
      assert w[n..] == [];
      DrivesNothing(next);
    }
  }

  lemma BodyFacts(b: Body)
    requires GoodBody(b, |b.lens|)
    ensures |b.inUse| == 256 && 3 <= AlphaSize(b.inUse) <= 258 && |Unmap(b.inUse)| == 256
  {
  }

  lemma TryMore(b: Body, groupNo: int, groupPos: int, runs: Runs, zn: int, zvec: int)
    requires InSymbols(b, groupNo, groupPos, runs) && 1 <= zn <= 20 && zvec > LimitAt(TableOf(b, groupNo), zn)
    ensures TryCode(b, groupNo, groupPos, runs, zn, zvec) == CodeMore(b, groupNo, groupPos, runs, zn + 1, zvec)
  {
    hide InSymbols, TableOf, LimitAt, AfterSymbol;
  }

  lemma TryFound(b: Body, groupNo: int, groupPos: int, runs: Runs, zn: int, zvec: int, sym: int)
    requires InSymbols(b, groupNo, groupPos, runs) && 1 <= zn <= 20 && 0 <= sym < AlphaSize(b.inUse)
    requires var len := TableOf(b, groupNo);
      zvec <= LimitAt(len, zn) && 0 <= zvec - BaseAt(len, zn) < |len| && SymbolAt(len, zvec - BaseAt(len, zn), 0) == sym
    ensures TryCode(b, groupNo, groupPos, runs, zn, zvec) == AfterSymbol(b, groupNo, groupPos, runs, sym)
  {
    hide InSymbols, TableOf, LimitAt, BaseAt, SymbolAt, AfterSymbol, Used;
  }

  /** A state waiting for one more bit of a word. */
  lemma MoreFacts(b: Body, groupNo: int, groupPos: int, runs: Runs, zn: int, zvec: int, bit: bool)
    requires InSymbols(b, groupNo, groupPos, runs) && 1 <= zn <= 21 && zvec >= 0
    ensures var st := CodeMore(b, groupNo, groupPos, runs, zn, zvec);
      && Sane(st) && !Halted(st) && Need(st) == 1
      && Advance(st, if bit then 1 else 0) == TryCode(b, groupNo, groupPos, runs, zn, zvec * 2 + if bit then 1 else 0)
  {
    hide InSymbols, TryCode;
  }

  /** The window of n bits of a word, against the tables. */
  lemma WindowAt(len: seq<int>, w: seq<bool>, sym: int, n: nat)
    requires Decides(len, w, sym) && Least(len) <= n <= |w|
    ensures 1 <= n <= |w| <= 20
    ensures var v := Value(w[..n]);
      if n < |w| then v > LimitAt(len, n)
      else v <= LimitAt(len, n) && 0 <= v - BaseAt(len, n) < |len| && SymbolAt(len, v - BaseAt(len, n), 0) == sym
  {
    hide LimitAt, BaseAt, SymbolAt, Least, Value;
    assert w[..|w|] == w;
  }

  lemma OneBitMore(w: seq<bool>, n: nat)
    requires n < |w|
    ensures [w[n]] + w[n + 1..] == w[n..]
    ensures Value(w[..n + 1]) == Value(w[..n]) * 2 + if w[n] then 1 else 0
  {
    assert w[..n + 1][..n] == w[..n];
  }

  /** A code word takes the parser from the start of a code to the state after its symbol. */
  lemma WordDrives(b: Body, groupNo: int, groupPos: int, runs: Runs, w: seq<bool>, sym: int)
    requires InSymbols(b, groupNo, groupPos, runs) && 0 <= sym < AlphaSize(b.inUse) && Decides(TableOf(b, groupNo), w, sym)
    ensures Drives(CodeStart(b, groupNo, groupPos, runs), w, AfterSymbol(b, groupNo, groupPos, runs, sym))
  {
    hide Drives, AfterSymbol, LimitAt, BaseAt, SymbolAt, Least, Value, GoodBody, TableOf, Used, TryCode, Sane, Need, Advance;
    BodyFacts(b);
    var len := TableOf(b, groupNo);
    var n := Least(len);
    hide Decides;
    var st := CodeStart(b, groupNo, groupPos, runs);
    WordRest(b, groupNo, groupPos, runs, w, sym, n);
    ValueBound(w[..n]);
    StartFacts(b, groupNo, groupPos, runs, Value(w[..n]));
    DrivesField(st, n, Value(w[..n]));
    BitsOfValue(w[..n]);
    assert w[..n] + w[n..] == w;
    DrivesJoin(st, w[..n], TryCode(b, groupNo, groupPos, runs, n, Value(w[..n])), w[n..], AfterSymbol(b, groupNo, groupPos, runs, sym));
  }

  lemma StartFacts(b: Body, groupNo: int, groupPos: int, runs: Runs, v: int)
    requires InSymbols(b, groupNo, groupPos, runs) && v >= 0
    ensures var st, n := CodeStart(b, groupNo, groupPos, runs), Least(TableOf(b, groupNo));
      && Sane(st) && !Halted(st) && Need(st) == n && 1 <= n <= 20
      && Advance(st, v) == TryCode(b, groupNo, groupPos, runs, n, v)
  {
    LeastGood(TableOf(b, groupNo), AlphaSize(b.inUse));
    hide Used, TryCode, Least;
  }

  // ---------- the symbols of a block ----------

  /** The state in which symbol x is about to be read. */
  ghost function SymbolState(b: Body, x: nat, runs: Runs): (st: State)
    requires GoodBody(b, |b.lens|) && x / GROUP_SIZE < |b.selector| && |runs.mtf| == 256
    ensures Sane(st)
  {
    CodeStart(b, x / GROUP_SIZE, GROUP_SIZE - 1 - x % GROUP_SIZE, runs)
  }

  lemma NextIs(b: Body, x: nat, runs: Runs)
    requires GoodBody(b, |b.lens|) && x / GROUP_SIZE < |b.selector| && (x + 1) / GROUP_SIZE < |b.selector| && |runs.mtf| == 256
    ensures NextSymbol(b, x / GROUP_SIZE, GROUP_SIZE - 1 - x % GROUP_SIZE, runs) == SymbolState(b, x + 1, runs)
  {
    if x % GROUP_SIZE == GROUP_SIZE - 1 {
      assert (x + 1) / GROUP_SIZE == x / GROUP_SIZE + 1 && (x + 1) % GROUP_SIZE == 0;
    } else {
      assert (x + 1) / GROUP_SIZE == x / GROUP_SIZE && (x + 1) % GROUP_SIZE == x % GROUP_SIZE + 1;
    }
  }

  ghost function PlanOf(b: Body): Plan { Plan(b.selector, b.lens) }

  ghost predicate Readable(b: Body, syms: seq<int>) {
    && GoodBody(b, |b.lens|) && GoodSymbols(PlanOf(b), syms) && SymbolRange(syms, AlphaSize(b.inUse) - 1)
    && (forall x :: 0 <= x < |syms| ==> Decides(b.lens[b.selector[x / GROUP_SIZE]], Word(b.lens[b.selector[x / GROUP_SIZE]], syms[x]), syms[x]))
    && forall k :: 0 <= k < |syms| - 1 ==> syms[k] != AlphaSize(b.inUse) - 1
  }

  /** The code words of the symbols from x on take the decoder through them to the finished block. */
  lemma {:induction false} SymbolsDrive(b: Body, syms: seq<int>, x: nat, runs: Runs, l: seq<byte>)
    requires Readable(b, syms) && x < |syms| && |runs.mtf| == 256 && 0 <= b.h.origPtr < |l|
    requires FeedAll(runs, syms[x..], AlphaSize(b.inUse) - 1, Unmap(b.inUse), 100000 * b.h.level) == Ended(l)
    ensures x / GROUP_SIZE < |b.selector|
    ensures Drives(SymbolState(b, x, runs), SymbolBits(PlanOf(b), syms, x), BlockDone(b.h, l))
    decreases |syms| - x
  {
    hide Drives, Feed, Word, GoodBody, GoodSymbols, Unmap, Used, Decides, NextSymbol, Sane, GoodLengths, TableOf, Readable, AfterSymbol, SymbolState, GoodMap;
    ReadableFacts(b, syms);
    BodyFacts(b);
    var g, pos, eob, u, most := x / GROUP_SIZE, GROUP_SIZE - 1 - x % GROUP_SIZE, AlphaSize(b.inUse) - 1, Unmap(b.inUse), 100000 * b.h.level;
    SymbolFacts(b, syms, x, runs);
    var st := SymbolState(b, x, runs);
    var f := Feed(runs, syms[x], eob, u, most);
    var rest := syms[x..];
    assert rest[0] == syms[x] && rest[1..] == syms[x + 1..];
    var w := Word(TableOf(b, g), syms[x]);
    WordDrives(b, g, pos, runs, w, syms[x]);
    var mid := AfterSymbol(b, g, pos, runs, syms[x]);
    if f.More? {
      NotLast(b, syms, x, runs, l);
      FeedKeeps(runs, syms[x], eob, u, most);
      SymbolsDrive(b, syms, x + 1, f.d, l);
      NextIs(b, x, f.d);
      MidMore(b, g, pos, runs, syms[x]);
      DrivesJoin(st, w, mid, SymbolBits(PlanOf(b), syms, x + 1), BlockDone(b.h, l));
    } else {
      EndsLast(runs, rest, eob, u, most, l);
      MidEnd(b, g, pos, runs, syms[x], l);
      LastSymbol(b, syms, x);
      assert w + [] == w;
    }
  }

  lemma ReadableFacts(b: Body, syms: seq<int>)
    requires Readable(b, syms)
    ensures GoodBody(b, |b.lens|) && GoodSymbols(PlanOf(b), syms) && SymbolRange(syms, AlphaSize(b.inUse) - 1)
  {
  }

  lemma SymbolFacts(b: Body, syms: seq<int>, x: nat, runs: Runs)
    requires Readable(b, syms) && x < |syms| && |runs.mtf| == 256
    ensures var g, pos := x / GROUP_SIZE, GROUP_SIZE - 1 - x % GROUP_SIZE;
      && InSymbols(b, g, pos, runs) && g < |b.selector| && 0 <= b.selector[g] < |b.lens|
      && 0 <= syms[x] < AlphaSize(b.inUse) <= 258
      && TableOf(b, g) == b.lens[b.selector[g]] && 0 <= TableOf(b, g)[syms[x]]
      && Decides(TableOf(b, g), Word(TableOf(b, g), syms[x]), syms[x])
      && SymbolState(b, x, runs) == CodeStart(b, g, pos, runs) && GoodSymbols(PlanOf(b), syms)
      && SymbolBits(PlanOf(b), syms, x) == Word(TableOf(b, g), syms[x]) + SymbolBits(PlanOf(b), syms, x + 1)
  {
    assert x / GROUP_SIZE < |PlanOf(b).sel|;
    hide Decides, Word, Used;
  }

  lemma NotLast(b: Body, syms: seq<int>, x: nat, runs: Runs, l: seq<byte>)
    requires Readable(b, syms) && x < |syms| && |runs.mtf| == 256
    requires FeedAll(runs, syms[x..], AlphaSize(b.inUse) - 1, Unmap(b.inUse), 100000 * b.h.level) == Ended(l)
    requires Feed(runs, syms[x], AlphaSize(b.inUse) - 1, Unmap(b.inUse), 100000 * b.h.level).More?
    ensures x + 1 < |syms| && (x + 1) / GROUP_SIZE < |b.selector|
  {
    hide Feed, Unmap, Used, Decides, GoodBody;
    var rest := syms[x..];
    assert rest[0] == syms[x];
    var tail := rest[1..];
    assert |tail| == |syms| - x - 1 && (tail == [] || |tail| > 0);
    assert x + 1 < |syms| ==> (x + 1) / GROUP_SIZE < |PlanOf(b).sel|;
  }

  lemma LastSymbol(b: Body, syms: seq<int>, x: nat)
    requires Readable(b, syms) && x < |syms| && syms[x] == AlphaSize(b.inUse) - 1
    ensures x + 1 == |syms| && SymbolBits(PlanOf(b), syms, x + 1) == []
  {
  }

  lemma MidMore(b: Body, groupNo: int, groupPos: int, runs: Runs, sym: int)
    requires InSymbols(b, groupNo, groupPos, runs) && 0 <= sym < AlphaSize(b.inUse) <= 258
    requires Feed(runs, sym, AlphaSize(b.inUse) - 1, Unmap(b.inUse), 100000 * b.h.level).More?
    ensures |Feed(runs, sym, AlphaSize(b.inUse) - 1, Unmap(b.inUse), 100000 * b.h.level).d.mtf| == 256
    ensures AfterSymbol(b, groupNo, groupPos, runs, sym)
         == NextSymbol(b, groupNo, groupPos, Feed(runs, sym, AlphaSize(b.inUse) - 1, Unmap(b.inUse), 100000 * b.h.level).d)
  {
    FeedKeeps(runs, sym, AlphaSize(b.inUse) - 1, Unmap(b.inUse), 100000 * b.h.level);
    hide Feed, Unmap, NextSymbol, Used, GoodBody;
  }

  lemma MidEnd(b: Body, groupNo: int, groupPos: int, runs: Runs, sym: int, l: seq<byte>)
    requires InSymbols(b, groupNo, groupPos, runs) && 0 <= sym < AlphaSize(b.inUse) <= 258 && 0 <= b.h.origPtr < |l|
    requires Feed(runs, sym, AlphaSize(b.inUse) - 1, Unmap(b.inUse), 100000 * b.h.level) == Ended(l)
    ensures AfterSymbol(b, groupNo, groupPos, runs, sym) == BlockDone(b.h, l)
  {
    hide Feed, Unmap, NextSymbol, Used, GoodBody;
  }

  lemma FeedKeeps(d: Runs, sym: int, eob: int, u: seq<byte>, most: int)
    requires |d.mtf| == |u| == 256 && 0 <= sym <= eob <= 257
    ensures Feed(d, sym, eob, u, most).More? ==> |Feed(d, sym, eob, u, most).d.mtf| == 256
  {
  }

  lemma EndsLast(d: Runs, syms: seq<int>, eob: int, u: seq<byte>, most: int, l: seq<byte>)
    requires |d.mtf| == |u| == 256 && 1 < eob <= 257 && SymbolRange(syms, eob) && syms != []
    requires FeedAll(d, syms, eob, u, most) == Ended(l) && !Feed(d, syms[0], eob, u, most).More?
    ensures Feed(d, syms[0], eob, u, most) == Ended(l) && syms[0] == eob
  {
  }

  // ---------- a whole block ----------

  ghost predicate ShortEnough(l: seq<byte>, level: int) {
    1 <= level <= 9 && 1 <= |l| <= 100000 * level
  }

  /** The last column in list entries: the rank of each byte among the bytes in use. */
  ghost function Entries(l: seq<byte>, inUse: seq<bool>): (s: seq<int>)
    requires |inUse| == 256
    ensures |s| == |l|
  {
    seq(|l|, r requires 0 <= r < |l| => |Used(inUse, l[r])|)
  }

  lemma EntriesIn(l: seq<byte>, inUse: seq<bool>)
    requires UsedMarks(l, inUse) && l != []
    ensures GoodMap(inUse) && |Used(inUse, 256)| <= 256
    ensures Injective(Numbers(|Used(inUse, 256)|)) && AllIn(Entries(l, inUse), Numbers(|Used(inUse, 256)|))
  {
    var s, y := Entries(l, inUse), Numbers(|Used(inUse, 256)|);
    UsedAt(inUse, 256, l[0]);
    hide Used;
    forall e | e in s ensures e in y {
      var x :| 0 <= x < |l| && s[x] == e;
      UsedAt(inUse, 256, l[x]);
      assert y[e] == e;
    }
  }

  /** The symbols of a last column. */
  ghost function ColumnSymbols(l: seq<byte>, inUse: seq<bool>): seq<int>
    requires UsedMarks(l, inUse) && l != []
  {
    EntriesIn(l, inUse);
    var used := |Used(inUse, 256)|;
    Symbols(Numbers(used), 0, Entries(l, inUse), used + 1)
  }

  /** Mapping the entries back gives the column. */
  lemma EntriesBack(l: seq<byte>, inUse: seq<bool>)
    requires UsedMarks(l, inUse) && l != []
    ensures ByteRange(Entries(l, inUse)) && Mapped(Entries(l, inUse), Unmap(inUse)) == l
  {
    EntriesIn(l, inUse);
    var s, u := Entries(l, inUse), Unmap(inUse);
    forall r | 0 <= r < |l| ensures 0 <= s[r] < 256 && u[s[r]] == l[r] {
      UsedAt(inUse, 256, l[r]);
    }
  }

  /** The decoder's symbol-driven part returns the column. */
  lemma ColumnDecodes(l: seq<byte>, inUse: seq<bool>, level: int)
    requires UsedMarks(l, inUse) && ShortEnough(l, level)
    ensures GoodMap(inUse)
    ensures var syms, eob := ColumnSymbols(l, inUse), AlphaSize(inUse) - 1;
      && eob <= 257 && SymbolRange(syms, eob)
      && (forall k :: 0 <= k < |syms| - 1 ==> syms[k] != eob) && 1 <= |syms| <= |l| + 1
      && FeedAll(Runs(Numbers(256), -1, 1, []), syms, eob, Unmap(inUse), 100000 * level) == Ended(l)
  {
    hide Used, FeedAll, Mapped, Entries, Injective, UsedMarks, Symbols, DecodesTo, AllIn, Copies;
    EntriesIn(l, inUse);
    EntriesBack(l, inUse);
    var used := |Used(inUse, 256)|;
    var y, s, u := Numbers(used), Entries(l, inUse), Unmap(inUse);
    var tail: seq<byte> := seq(256 - used, x requires 0 <= x < 256 - used => used + x);
    assert y + tail == Numbers(256);
    SymbolsBounds(y, 0, s, used + 1);
    SymbolsDecode(y, tail, 0, s, [], u, 100000 * level);
    DecodedIs(y, tail, s, Symbols(y, 0, s, used + 1), u, 100000 * level, l);
  }

  lemma DecodedIs(y: seq<int>, tail: seq<byte>, s: seq<int>, syms: seq<int>, u: seq<byte>, most: int, l: seq<byte>)
    requires DecodesTo(y, tail, 0, s, syms, [], u, most) && ByteRange(s) && Mapped(s, u) == l
    ensures SymbolRange(syms, |y| + 1) && |u| == |y + tail| == 256
    ensures FeedAll(Runs(y + tail, -1, 1, []), syms, |y| + 1, u, most) == Ended(l)
  {
    hide FeedAll, Mapped;
    assert [] + Copies(u[y[0]], 0) + Mapped(s, u) == Mapped(s, u);
  }

  lemma BodyReadable(h: Header, inUse: seq<bool>, p: Plan, syms: seq<int>)
    requires GoodBlock(inUse, p, syms) && SymbolRange(syms, AlphaSize(inUse) - 1)
    requires forall k :: 0 <= k < |syms| - 1 ==> syms[k] != AlphaSize(inUse) - 1
    ensures Readable(Body(h, inUse, p.sel, p.lens), syms) && GoodBody(Body(h, inUse, p.sel, p.lens), |p.lens|)
    ensures PlanOf(Body(h, inUse, p.sel, p.lens)) == p
  {
    hide Used, Decodable, Decides, Word;
    forall x | 0 <= x < |syms| ensures Decides(p.lens[p.sel[x / GROUP_SIZE]], Word(p.lens[p.sel[x / GROUP_SIZE]], syms[x]), syms[x]) {
      assert x / GROUP_SIZE < |p.sel|;
      WordInTables(p.lens[p.sel[x / GROUP_SIZE]], AlphaSize(inUse), syms[x]);
    }
  }

  /**
   * Every block survives: the parser, fed with the bits of a block and anything after them, stops exactly at the
   * end of the block with the header fields and the last column that went in.
   */
  lemma BlockParses(level: int, crc: int, orig: int, l: seq<byte>, inUse: seq<bool>, p: Plan)
    requires ShortEnough(l, level) && 0 <= crc < WORD && 0 <= orig < |l| && UsedMarks(l, inUse)
    requires GoodBlock(inUse, p, ColumnSymbols(l, inUse))
    ensures Drives(BlockHeader(level, 0), BlockBits(crc, orig, inUse, p, ColumnSymbols(l, inUse)),
                   BlockDone(Header(level, crc, false, orig), l))
  {
    var h := Header(level, crc, false, orig);
    var syms := ColumnSymbols(l, inUse);
    var b, n := Body(h, inUse, p.sel, p.lens), |p.lens|;
    ColumnDecodes(l, inUse, level);
    BodyReadable(h, inUse, p, syms);
    PlanFacts(inUse, p, syms);
    hide Drives, UsedMarks, GoodBlock, Used, ColumnSymbols, HeadBits, MapBits, SelectorBits, TableBits, SymbolBits, FeedAll, Readable, GoodBody, GoodMap, GoodPlan;
    HeadDrives(level, crc, orig);
    MappingDrives(h, inUse);
    SelectorsDrive(h, inUse, p);
    TablesDrive(Body(h, inUse, p.sel, []), p.lens);
    assert syms[0..] == syms;
    StartSymbol(b);
    SymbolsDrive(b, syms, 0, Runs(Numbers(256), -1, 1, []), l);
    FiveParts(BlockHeader(level, 0), HeadBits(crc, orig), Mapping16(h, []), MapBits(inUse), GroupCount(h, inUse), SelectorBits(p),
              FirstLength(Body(h, inUse, p.sel, []), n), TableBits(p.lens), Start(b), SymbolBits(p, syms, 0), BlockDone(h, l));
  }

  lemma PlanFacts(inUse: seq<bool>, p: Plan, syms: seq<int>)
    requires GoodBlock(inUse, p, syms)
    ensures GoodMap(inUse) && 2 <= |p.lens| <= 6 && 1 <= |p.sel| < 32768 && AllBelow(p.sel, |p.lens|)
  {
  }

  lemma StartSymbol(b: Body)
    requires GoodBody(b, |b.lens|)
    ensures |b.selector| >= 1 && Start(b) == SymbolState(b, 0, Runs(Numbers(256), -1, 1, []))
  {
  }

  lemma FiveParts(s0: State, a: seq<bool>, s1: State, c: seq<bool>, s2: State, d: seq<bool>, s3: State, e: seq<bool>, s4: State,
                  f: seq<bool>, s5: State)
    requires Drives(s0, a, s1) && Drives(s1, c, s2) && Drives(s2, d, s3) && Drives(s3, e, s4) && Drives(s4, f, s5)
    ensures Drives(s0, a + c + d + e + f, s5)
  {
    hide *;
    DrivesJoin(s0, a, s1, c, s2);
    DrivesJoin(s0, a + c, s2, d, s3);
    DrivesJoin(s0, a + c + d, s3, e, s4);
    DrivesJoin(s0, a + c + d + e, s4, f, s5);
  }
}
