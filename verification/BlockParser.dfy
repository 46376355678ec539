/**
 * The resumable parser.  It runs from label to label; whenever the input gives out it puts its variables into the
 * save area and returns, and the next call starts again from what it finds there.
 */
module BlockParser {
  import opened BitIO
  import opened Rotations
  import opened Counting
  import opened CanonicalCodes
  import opened MoveToFront
  import opened GenerateMtf
  import opened SegmentedList
  import opened DecodeMachine
  import opened ColumnStore
  import opened ParserState

  const MAX_SELECTORS := 32768

  function NoLengths(): (len: seq<seq<int>>)
    ensures |len| == MAX_GROUPS && forall k :: 0 <= k < MAX_GROUPS ==> |len[k]| == MAX_ALPHA_SIZE
  {
    seq(MAX_GROUPS, _ => seq(MAX_ALPHA_SIZE, _ => 0))
  }

  function NoTables(): (t: seq<Table>)
    ensures |t| == MAX_GROUPS
  {
    seq(MAX_GROUPS, _ => Table([], [], [], 0))
  }

  class DState {
    const bs: BitReader
    const inUse16: array<bool>
    const inUse: array<bool>
    const seqToUnseq: array<byte>
    const selectorMtf: array<int>
    const selector: array<int>
    const mtf: MtfArena
    const store: Column  // tt, ll16, ll4, unzftab and cftab
    var state: int
    var saved: Saved
    var storedBlockCRC: int
    var storedCombinedCRC: int
    var blockRandomised: bool
    var origPtr: int
    var nInUse: int
    var len: seq<seq<int>>
    var tables: seq<Table>

    /** What the parser may change besides its own fields. */
    ghost function Owned(): set<object> {
      {inUse16, inUse, seqToUnseq, selectorMtf, selector, mtf.mtfa, mtf.mtfbase, store} + store.Arrays()
    }

    ghost predicate Shape()
      reads this`len, this`tables
    {
      && inUse16.Length == 16 && inUse.Length == 256 && seqToUnseq.Length == 256
      && selectorMtf.Length == selector.Length == MAX_SELECTORS && selectorMtf != selector
      && mtf.mtfa.Length == ARENA && mtf.mtfbase.Length == PART
      && |len| == MAX_GROUPS && (forall k :: 0 <= k < MAX_GROUPS ==> |len[k]| == MAX_ALPHA_SIZE) && |tables| == MAX_GROUPS
    }

    ghost predicate Inv()
      reads this`len, this`tables, mtf, mtf.mtfa, mtf.mtfbase, store`level
    {
      && Shape() && mtf.Valid() && store.Fits()
      && selector !in store.Arrays() && selectorMtf !in store.Arrays() && mtf.mtfbase !in store.Arrays()
    }

    /** The column array holds what has been read of the block. */
    ghost predicate Holding()
      reads this`state, store`level, store`l, store.unzftab, store.Cells()
    {
      X_MTF_1 <= state <= X_MTF_6 ==> store.Holds()
    }

    ghost function Now(x: Saved): View
      requires mtf.Valid()
      reads this, inUse16, inUse, seqToUnseq, selectorMtf, selector, mtf, mtf.mtfa, mtf.mtfbase, store
    {
      View(state, x, store.level, storedBlockCRC, storedCombinedCRC, blockRandomised, origPtr,
           inUse16[..], inUse[..], nInUse, seqToUnseq[..], selectorMtf[..], selector[..], len, tables, mtf.List(), store.l)
    }

    /** BZ2_bzDecompressInit. */
    constructor (small: bool)
      ensures Inv() && Holding() && state == X_MAGIC_1 && bs.Valid() && bs.Ahead() == [] && store.small == small
      ensures bs.input == [] && bs.bsLive == 0
      ensures fresh(bs) && fresh(Owned())
    {
      hide Layout, ListOf, NoLengths, NoTables, AheadOf, Answers, Matches;
      var used16, used, unseq, selMtf, sel := Buffers();
      inUse16, inUse, seqToUnseq, selectorMtf, selector := used16, used, unseq, selMtf, sel;
      state := X_MAGIC_1;
      len, tables := NoLengths(), NoTables();
      bs := new BitReader();
      store := new Column(small);
      mtf := new MtfArena();
      new;
    }

    static method Buffers() returns (used16: array<bool>, used: array<bool>, unseq: array<byte>, selMtf: array<int>, sel: array<int>)
      ensures used16.Length == 16 && used.Length == unseq.Length == 256 && selMtf.Length == sel.Length == MAX_SELECTORS && selMtf != sel
      ensures fresh(used16) && fresh(used) && fresh(unseq) && fresh(selMtf) && fresh(sel)
    {
      used16, used, unseq := new bool[16], new bool[256], new byte[256];
      selMtf, sel := new int[MAX_SELECTORS], new int[MAX_SELECTORS];
    }

    // ---------- headers and trailer ----------

    method StepMagic(x: Saved, v: int, ghost st: State) returns (x': Saved, code: Code)
      requires Inv() && Matches(Now(x), st) && Sane(st) && st.Magic? && v >= 0
      modifies this`state, store`level
      ensures Inv() && Holding() && Answers(code, Now(x'), Advance(st, v)) && code != BlockReady
    {
      hide Matches, AdvanceTables, TryCode, Layout, ListOf;
      HeaderMatches(Now(x), st);
      x' := x;
      if state < X_MAGIC_1 + 3 {
        if v != STREAM_MAGIC[state - X_MAGIC_1] { return x', BadMagic; }
        state := state + 1;
        HeaderMatches(Now(x'), Advance(st, v));
        return x', Going;
      }
      if v < HDR_0 + 1 || v > HDR_0 + 9 { return x', BadMagic; }
      store.level := v - HDR_0;
      state := X_BLKHDR_1;
      code := Going;
      HeaderMatches(Now(x'), Advance(st, v));
    }

    method StepBlockHeader(x: Saved, v: int, ghost st: State) returns (x': Saved, code: Code)
      requires Inv() && Matches(Now(x), st) && Sane(st) && st.BlockHeader? && v >= 0
      modifies this`state, this`storedBlockCRC
      ensures Inv() && Holding() && Answers(code, Now(x'), Advance(st, v)) && code != BlockReady
    {
      hide Matches, AdvanceTables, TryCode, Layout, ListOf;
      HeaderMatches(Now(x), st);
      x' := x;
      var k := state - X_BLKHDR_1;
      if k == 0 && v == END_MAGIC[0] {
        state := X_ENDHDR_2;
        HeaderMatches(Now(x'), Advance(st, v));
        return x', Going;
      }
      if v != BLOCK_MAGIC[k] { return x', BadData; }
      if k == 5 { storedBlockCRC := 0; }
      state := if k < 5 then state + 1 else X_BCRC_1;
      code := Going;
      HeaderMatches(Now(x'), Advance(st, v));
    }

    method StepBlockCrc(x: Saved, v: int, ghost st: State) returns (x': Saved, code: Code)
      requires Inv() && Matches(Now(x), st) && Sane(st) && st.BlockCrc? && v >= 0
      modifies this`state, this`storedBlockCRC
      ensures Inv() && Holding() && Answers(code, Now(x'), Advance(st, v)) && code != BlockReady
    {
      hide Matches, AdvanceTables, TryCode, Layout, ListOf;
      HeaderMatches(Now(x), st);
      x' := x;
      storedBlockCRC := storedBlockCRC * 256 + v;
      state := if state < X_BCRC_1 + 3 then state + 1 else X_RANDBIT;
      code := Going;
      HeaderMatches(Now(x'), Advance(st, v));
    }

    method StepRandBit(x: Saved, v: int, ghost st: State) returns (x': Saved, code: Code)
      requires Inv() && Matches(Now(x), st) && Sane(st) && st.RandBit? && v >= 0
      modifies this`state, this`blockRandomised, this`origPtr
      ensures Inv() && Holding() && Answers(code, Now(x'), Advance(st, v)) && code != BlockReady
    {
      hide Matches, AdvanceTables, TryCode, Layout, ListOf;
      HeaderMatches(Now(x), st);
      x' := x;
      blockRandomised := v == 1;
      origPtr := 0;
      state := X_ORIGPTR_1;
      code := Going;
      HeaderMatches(Now(x'), Advance(st, v));
    }

    method StepOrigPtr(x: Saved, v: int, ghost st: State) returns (x': Saved, code: Code)
      requires Inv() && Matches(Now(x), st) && Sane(st) && st.OrigPtr? && v >= 0
      modifies this`state, this`origPtr
      ensures Inv() && Holding() && Answers(code, Now(x'), Advance(st, v)) && code != BlockReady
    {
      hide Matches, AdvanceTables, TryCode, Layout, ListOf;
      HeaderMatches(Now(x), st);
      x' := x;
      origPtr := origPtr * 256 + v;
      if state < X_ORIGPTR_1 + 2 {
        state := state + 1;
        HeaderMatches(Now(x'), Advance(st, v));
        return x', Going;
      }
      if origPtr < 0 { assert false; }
      if origPtr > 10 + 100000 * store.level { return x', BadData; }
      x' := x.(i := 0);
      state := X_MAPPING_1;
      code := Going;
      HeaderMatches(Now(x'), Advance(st, v));
    }

    method StepEndHeader(x: Saved, v: int, ghost st: State) returns (x': Saved, code: Code)
      requires Inv() && Matches(Now(x), st) && Sane(st) && st.EndHeader? && v >= 0
      modifies this`state, this`storedCombinedCRC
      ensures Inv() && Holding() && Answers(code, Now(x'), Advance(st, v)) && code != BlockReady
    {
      hide Matches, AdvanceTables, TryCode, Layout, ListOf;
      HeaderMatches(Now(x), st);
      x' := x;
      if v != END_MAGIC[state - X_ENDHDR_2 + 1] { return x', BadData; }
      if state == X_ENDHDR_2 + 4 { storedCombinedCRC := 0; }
      state := state + 1;
      code := Going;
      HeaderMatches(Now(x'), Advance(st, v));
    }

    method StepCombinedCrc(x: Saved, v: int, ghost st: State) returns (x': Saved, code: Code)
      requires Inv() && Matches(Now(x), st) && Sane(st) && st.CombinedCrc? && v >= 0
      modifies this`state, this`storedCombinedCRC
      ensures Inv() && Holding() && Answers(code, Now(x'), Advance(st, v)) && code != BlockReady
    {
      hide Matches, AdvanceTables, TryCode, Layout, ListOf;
      HeaderMatches(Now(x), st);
      x' := x;
      storedCombinedCRC := storedCombinedCRC * 256 + v;
      code := if state < X_CCRC_1 + 3 then Going else EndReached;
      state := if state < X_CCRC_1 + 3 then state + 1 else X_IDLE;
      HeaderMatches(Now(x'), Advance(st, v));
    }

    // ---------- the mapping ----------

    method StepMapping1(x: Saved, v: int, ghost st: State) returns (x': Saved, code: Code)
      requires Inv() && Matches(Now(x), st) && Sane(st) && st.Mapping16? && v >= 0
      modifies this`state, this`nInUse, inUse16, inUse, seqToUnseq
      ensures Inv() && Holding() && Answers(code, Now(x'), Advance(st, v)) && code != BlockReady
    {
      hide Matches, AfterMapping, AdvanceHeader, TryCode, Layout, ListOf, MapRead, Used;
      HeaderMatches(Now(x), st);
      inUse16[x.i] := v == 1;
      x' := x.(i := x.i + 1);
      assert inUse16[..x'.i] == st.used16 + [v == 1];
      if x'.i < 16 {
        HeaderMatches(Now(x'), Advance(st, v));
        return x', Going;
      }
      assert inUse16[..] == st.used16 + [v == 1];
      ClearInUse();
      assert inUse[..][..0] == [];
      x', code := NextGroup(x', 0, st.h, st.used16 + [v == 1]);
    }

    method ClearInUse()
      requires inUse.Length == 256
      modifies inUse
      ensures forall p :: 0 <= p < 256 ==> !inUse[p]
    {
      for i := 0 to 256
        invariant forall p :: 0 <= p < i ==> !inUse[p]
      {
        inUse[i] := false;
      }
    }

    /** On to the next group of the mapping that is in use; behind the last one, the bytes in use are numbered. */
    method NextGroup(x: Saved, g: int, ghost h: Header, ghost used16: seq<bool>) returns (x': Saved, code: Code)
      requires Inv() && HeaderIs(Now(x), h) && used16 == inUse16[..] && 0 <= g <= 16 && state < X_MTF_1
      requires forall p :: 16 * g <= p < 256 ==> !inUse[p]
      modifies this`state, this`nInUse, seqToUnseq
      ensures Inv() && Holding() && Answers(code, Now(x'), AfterMapping(h, used16, inUse[..][..16 * g])) && code != BlockReady
    {
      hide Matches, AfterMapping, Layout, ListOf, Used, Answers;
      var i := g;
      while i < 16 && !inUse16[i]
        invariant g <= i <= 16 && forall k :: g <= k < i ==> !inUse16[k]
      {
        i := i + 1;
      }
      ghost var marks := inUse[..];
      MappingNext(h, used16, marks, g, i);
      if i < 16 {
        x' := x.(i := i, j := 0);
        state := X_MAPPING_2;
        code := Going;
        AnswerMapping(Now(x'), h, used16, marks[..16 * i]);
      } else {
        x', code := NumberBytes(x.(i := i), h);
      }
      assert inUse[..] == marks;
    }

    method NumberBytes(x: Saved, ghost h: Header) returns (x': Saved, code: Code)
      requires Inv() && HeaderIs(Now(x), h) && state < X_MTF_1
      modifies this`state, this`nInUse, seqToUnseq
      ensures Inv() && Holding() && code != BlockReady
      ensures Answers(code, Now(x'), if Used(inUse[..], 256) == [] then DataError else GroupCount(h, inUse[..]))
    {
      hide Matches, Layout, ListOf, Used;
      nInUse := MakeMapsD(inUse, seqToUnseq);
      x' := x.(alphaSize := nInUse + 2);
      if nInUse == 0 { return x', BadData; }
      state := X_SELECTOR_1;
      code := Going;
      TableMatches(Now(x'), GroupCount(h, inUse[..]));
    }

    method Mark(p: int, v: int, ghost inUse0: seq<bool>)
      requires Inv() && 0 <= p < 256 && inUse[..p] == inUse0 && forall k :: p <= k < 256 ==> !inUse[k]
      modifies inUse
      ensures Inv() && inUse[..p + 1] == inUse0 + [v == 1] && forall k :: p + 1 <= k < 256 ==> !inUse[k]
    {
      hide Column.Fits, Layout, ListOf;
      if v == 1 { inUse[p] := true; }
    }

    method StepMapping2(x: Saved, v: int, ghost st: State) returns (x': Saved, code: Code)
      requires Inv() && Matches(Now(x), st) && Sane(st) && st.Mapping? && v >= 0
      modifies this`state, this`nInUse, inUse, seqToUnseq
      ensures Inv() && Holding() && Answers(code, Now(x'), Advance(st, v)) && code != BlockReady
    {
      hide Matches, AfterMapping, AdvanceHeader, TryCode, Layout, ListOf, MapRead, Used, Answers;
      TableMatches(Now(x), st);
      ghost var marks := st.inUse + [v == 1];
      Mark(16 * x.i + x.j, v, st.inUse);
      if x.j + 1 < 16 {
        x' := x.(j := x.j + 1);
        code := Going;
        MappingStays(st.h, st.used16, marks);
        AnswerMapping(Now(x'), st.h, st.used16, marks);
      } else {
        assert inUse[..][..16 * (x.i + 1)] == marks;
        x', code := NextGroup(x, x.i + 1, st.h, st.used16);
      }
    }

    // ---------- selectors ----------

    method StepGroups(x: Saved, v: int, ghost st: State) returns (x': Saved, code: Code)
      requires Inv() && Matches(Now(x), st) && Sane(st) && st.GroupCount? && v >= 0
      modifies this`state
      ensures Inv() && Holding() && Answers(code, Now(x'), Advance(st, v)) && code != BlockReady
    {
      hide Matches, AdvanceHeader, TryCode, Layout, ListOf, Used;
      TableMatches(Now(x), st);
      x' := x.(nGroups := v);
      if v < 2 || v > 6 { return x', BadData; }
      state := X_SELECTOR_2;
      code := Going;
      TableMatches(Now(x'), Advance(st, v));
    }

    method StepCount(x: Saved, v: int, ghost st: State) returns (x': Saved, code: Code)
      requires Inv() && Matches(Now(x), st) && Sane(st) && st.SelectorCount? && 0 <= v < MAX_SELECTORS
      modifies this`state
      ensures Inv() && Holding() && Answers(code, Now(x'), Advance(st, v)) && code != BlockReady
    {
      hide Matches, AdvanceHeader, TryCode, Layout, ListOf, Used;
      TableMatches(Now(x), st);
      x' := x.(nSelectors := v);
      if v < 1 { return x', BadData; }
      x' := x'.(i := 0, j := 0);
      state := X_SELECTOR_3;
      code := Going;
      TableMatches(Now(x'), Advance(st, v));
    }

    method StepSelector(x: Saved, v: int, ghost st: State) returns (x': Saved, code: Code)
      requires Inv() && Matches(Now(x), st) && Sane(st) && st.Selector? && v >= 0
      modifies this`state, selectorMtf, selector
      ensures Inv() && Holding() && Answers(code, Now(x'), Advance(st, v)) && code != BlockReady
    {
      hide Matches, AdvanceHeader, TryCode, Layout, ListOf, Used, AfterSelector, Answers;
      TableMatches(Now(x), st);
      if v != 0 {
        x' := x.(j := x.j + 1);
        code := if x'.j >= x'.nGroups then BadData else Going;
        MoreUnary(Now(x'), st, v, code);
        return;
      }
      selectorMtf[x.i] := x.j;
      x' := x.(i := x.i + 1, j := 0);
      ghost var mtfs := st.mtf + [st.j];
      assert selectorMtf[..x'.i] == mtfs;
      code := Going;
      if x'.i < x'.nSelectors {
        NextSelector(Now(x'), st, mtfs);
      } else {
        UndoSelectors(x'.nGroups, x'.nSelectors);
        x' := x'.(t := 0);
        state := X_CODING_1;
        AllSelectors(Now(x'), st, mtfs);
      }
    }

    /** Undoes the move-to-front coding of the selectors. */
    method UndoSelectors(nGroups: int, nSelectors: int)
      requires selectorMtf.Length == selector.Length == MAX_SELECTORS && selectorMtf != selector
      requires 2 <= nGroups <= MAX_GROUPS && 1 <= nSelectors <= MAX_SELECTORS
      requires forall k :: 0 <= k < nSelectors ==> 0 <= selectorMtf[k] < nGroups
      modifies selector
      ensures selector[..nSelectors] == Unselect(Numbers(nGroups), selectorMtf[..nSelectors])
    {
      hide Unselect, Numbers, Front;
      var pos := Positions(nGroups);
      ghost var mtfs := selectorMtf[..nSelectors];
      assert mtfs[0..] == mtfs;
      for i := 0 to nSelectors
        invariant selectorMtf[..nSelectors] == mtfs && fresh(pos) && pos.Length == MAX_GROUPS
        invariant selector[..i] + Unselect(pos[..nGroups], mtfs[i..]) == Unselect(Numbers(nGroups), mtfs)
      {
        UnselectStep(pos[..nGroups], mtfs, i);
        ghost var done, rest := selector[..i], Unselect(Front(pos[..nGroups], mtfs[i]), mtfs[i + 1..]);
        var tmp := ToFront(pos, selectorMtf[i], nGroups);
        PutSelector(i, tmp);
        Assoc(done, [tmp], rest);
      }
      UnselectNone(pos[..nGroups], mtfs[nSelectors..]);
      assert selector[..nSelectors] + [] == selector[..nSelectors];
    }

    method Positions(n: int) returns (pos: array<int>)
      requires 0 <= n <= MAX_GROUPS
      ensures fresh(pos) && pos.Length == MAX_GROUPS && pos[..n] == Numbers(n)
    {
      pos := new int[MAX_GROUPS];
      for v := 0 to n
        invariant forall k :: 0 <= k < v ==> pos[k] == k
      {
        pos[v] := v;
      }
      assert pos[..n] == Numbers(n);
    }

    method PutSelector(i: int, v: int)
      requires 0 <= i < selector.Length
      modifies selector
      ensures selector[..i + 1] == old(selector[..i]) + [v]
    {
      selector[i] := v;
    }

    /** Moves the entry at v to the front, and returns it. */
    method ToFront(pos: array<int>, v0: int, ghost n: int) returns (tmp: int)
      requires 0 <= v0 < n <= pos.Length
      modifies pos
      ensures tmp == old(pos[v0]) && pos[..n] == Front(old(pos[..n]), v0)
    {
      ghost var p := pos[..n];
      var v := v0;
      tmp := pos[v];
      while v > 0
        invariant 0 <= v <= v0
        invariant forall k {:trigger pos[k]} :: 0 <= k < n ==> pos[k] == if v < k <= v0 then p[k - 1] else p[k]
      {
        pos[v] := pos[v - 1];
        v := v - 1;
      }
      pos[0] := tmp;
      assert pos[..n] == Front(p, v0);
    }

    // ---------- code lengths ----------

    method StepCoding1(x: Saved, v: int, ghost st: State) returns (x': Saved, code: Code)
      requires Inv() && Matches(Now(x), st) && Sane(st) && st.FirstLength? && v >= 0
      modifies this`state
      ensures Inv() && Holding() && Answers(code, Now(x'), Advance(st, v)) && code != BlockReady
    {
      hide Matches, AdvanceHeader, TryCode, Layout, ListOf, Used, Answers, CheckLength;
      TableMatches(Now(x), st);
      x' := x.(curr := v, i := 0);
      state := X_CODING_2;
      code := if v < 1 || v > 20 then BadData else Going;
      AnswerLength(Now(x'), st.b, st.nGroups, [], v, code);
    }

    method StepCoding3(x: Saved, v: int, ghost st: State) returns (x': Saved, code: Code)
      requires Inv() && Matches(Now(x), st) && Sane(st) && st.LengthSign? && v >= 0
      modifies this`state
      ensures Inv() && Holding() && Answers(code, Now(x'), Advance(st, v)) && code != BlockReady
    {
      hide Matches, AdvanceHeader, TryCode, Layout, ListOf, Used, Answers, CheckLength;
      TableMatches(Now(x), st);
      x' := x.(curr := if v == 0 then x.curr + 1 else x.curr - 1);
      state := X_CODING_2;
      code := if x'.curr < 1 || x'.curr > 20 then BadData else Going;
      AnswerLength(Now(x'), st.b, st.nGroups, st.cur, x'.curr, code);
    }

    method StepCoding2(x: Saved, v: int, ghost st: State) returns (x': Saved, code: Code)
      requires Inv() && Matches(Now(x), st) && Sane(st) && Sized(st) && st.LengthMore? && v >= 0
      modifies this`state, this`len, this`tables, mtf.mtfa, mtf.mtfbase, store`l, store.unzftab
      ensures Inv() && Holding() && Answers(code, Now(x'), Advance(st, v)) && code != BlockReady
    {
      hide Matches, AdvanceHeader, TryCode, Layout, ListOf, Used, Answers, CheckLength, NextSymbol, Row, ReadingLengths, GoodLengths;
      TableMatches(Now(x), st);
      ghost var v0 := Now(x);
      RowFacts(v0, st.b, st.nGroups, st.cur, st.curr);
      if v != 0 {
        x' := x;
        state := X_CODING_3;
        LengthsKept(v0, st.b, st.nGroups, Now(x'));
        AnswerSign(Now(x'), st.b, st.nGroups, st.cur, st.curr);
        return x', Going;
      }
      RowGrows(v0, st.b, st.nGroups, st.cur, st.curr);
      LengthAdded(st.b, st.nGroups, st.cur, st.curr);
      len := len[x.t := len[x.t][x.i := x.curr]];
      x' := x.(i := x.i + 1);
      assert Now(x') == v0.(x := x', len := len);
      if x'.i < x'.alphaSize {
        code := if x'.curr < 1 || x'.curr > 20 then BadData else Going;
        AnswerLength(Now(x'), st.b, st.nGroups, st.cur + [st.curr], st.curr, code);
        return;
      }
      RowEnds(Now(x'), st.b, st.nGroups, st.cur + [st.curr], st.curr);
      x' := x'.(t := x'.t + 1);
      ghost var v1 := Now(x');
      ghost var b := st.b.(lens := st.b.lens + [st.cur + [st.curr]]);
      if x'.t < x'.nGroups {
        state := X_CODING_1;
        code := Going;
        LengthsKept(v1, b, st.nGroups, Now(x'));
        AnswerGroup(Now(x'), b, st.nGroups);
      } else {
        x', code := StartSymbols(x', b);
      }
    }

    // ---------- tables ----------

    method ShortestLongest(row: array<int>, alphaSize: int) returns (minLen: int, maxLen: int)
      requires 0 <= alphaSize <= row.Length
      ensures minLen == Least(row[..alphaSize]) && maxLen == Greatest(row[..alphaSize])
    {
      minLen, maxLen := 32, 0;
      for i := 0 to alphaSize
        invariant minLen == Least(row[..i]) && maxLen == Greatest(row[..i])
      {
        assert row[..i + 1][..i] == row[..i];
        if row[i] > maxLen { maxLen := row[i]; }
        if row[i] < minLen { minLen := row[i]; }
      }
    }

    method TableOfRow(row: array<int>, alphaSize: int) returns (tb: Table)
      requires 0 < alphaSize <= row.Length && alphaSize <= MAX_ALPHA_SIZE && GoodLengths(row[..alphaSize], alphaSize)
      ensures TableIs(tb, row[..alphaSize])
    {
      hide TableIs, Least, Greatest, Below, Tables;
      var limit, base, perm := new int[MAX_CODE_LEN], new int[MAX_CODE_LEN], new int[MAX_ALPHA_SIZE];
      LeastGood(row[..alphaSize], alphaSize);
      var minLen, maxLen := ShortestLongest(row, alphaSize);
      CreateDecodeTables(limit, base, perm, row, minLen, maxLen, alphaSize);
      TablesAgree(limit[..], base[..], perm[..], row[..alphaSize]);
      tb := Table(limit[..], base[..], perm[..], minLen);
    }

    /** The decoding tables of one group. */
    method BuildTable(t: int, alphaSize: int) returns (tb: Table)
      requires Shape() && 0 <= t < MAX_GROUPS && 0 < alphaSize <= MAX_ALPHA_SIZE && GoodLengths(len[t][..alphaSize], alphaSize)
      ensures TableIs(tb, len[t][..alphaSize])
    {
      var row := new int[MAX_ALPHA_SIZE];
      for i := 0 to MAX_ALPHA_SIZE
        invariant forall k :: 0 <= k < i ==> row[k] == len[t][k]
      {
        row[i] := len[t][i];
      }
      assert row[..alphaSize] == len[t][..alphaSize];
      hide GoodLengths, TableIs;
      tb := TableOfRow(row, alphaSize);
    }

    method BuildTables(nGroups: int, alphaSize: int)
      requires Shape() && 0 <= nGroups <= MAX_GROUPS && 0 < alphaSize <= MAX_ALPHA_SIZE
      requires forall k :: 0 <= k < nGroups ==> GoodLengths(len[k][..alphaSize], alphaSize)
      modifies this`tables
      ensures Shape() && forall k :: 0 <= k < nGroups ==> TableIs(tables[k], len[k][..alphaSize])
    {
      hide TableIs, GoodLengths;
      for t := 0 to nGroups
        invariant Shape() && forall k :: 0 <= k < t ==> TableIs(tables[k], len[k][..alphaSize])
      {
        var tb := BuildTable(t, alphaSize);
        tables := tables[t := tb];
      }
    }

    /** All code lengths are in: the decoding tables, the list and the counters are set up, and the first code begins. */
    method StartSymbols(x: Saved, ghost b: Body) returns (x': Saved, code: Code)
      requires Inv() && ReadingLengths(Now(x), b, |b.lens|) && GoodBody(b, |b.lens|) && LevelOk(store.level)
      modifies this`state, this`tables, mtf.mtfa, mtf.mtfbase, store`l, store.unzftab
      ensures Inv() && Holding() && code != BlockReady
      ensures Answers(code, Now(x'), NextSymbol(b, -1, 0, Runs(Numbers(256), -1, 1, [])))
    {
      hide Layout, ListOf, Used, Answers, NextSymbol, TableIs, GoodLengths, InBlock, ReadingLengths, Least, GoodBody, Occ;
      ghost var v := Now(x);
      LengthFacts(v, b);
      BuildTables(x.nGroups, x.alphaSize);
      x' := x.(eob := nInUse + 1, nblockMAX := 100000 * store.level, groupNo := -1, groupPos := 0, nblock := 0);
      store.Clear();
      mtf.Init();
      assert mtf.List() == Numbers(256);
      BlockStarts(v, b, Now(x'));
      InUseCount(v, b);
      x', code := StartCode(x', X_MTF_1, b, Runs(Numbers(256), -1, 1, []));
    }

    /** The head of GET_MTF_VAL: a new table every fifty symbols, and the shortest code of the table to read. */
    method StartCode(x: Saved, label0: int, ghost b: Body, ghost runs: Runs) returns (x': Saved, code: Code)
      requires Inv() && store.Holds() && StartLabel(label0) && InBlock(Now(x), b)
      requires -1 <= x.groupNo < |b.selector| && 0 <= x.groupPos < GROUP_SIZE && GoodBody(b, |b.lens|)
      requires x.groupPos > 0 ==> 0 <= x.groupNo && InGroup(Now(x), b, x.groupNo)
      requires RunsAre(Now(x), runs, RunLabel(label0))
      modifies this`state
      ensures Inv() && Holding() && Answers(code, Now(x'), NextSymbol(b, x.groupNo, x.groupPos, runs)) && code != BlockReady
    {
      hide Layout, ListOf, Used, Answers, InBlock, InGroup, Column.Fits, Occ;
      ghost var v := Now(x);
      x' := x;
      SelectorRange(v, b, x.groupNo + 1);
      if x.groupPos == 0 {
        x' := x'.(groupNo := x.groupNo + 1);
        if x'.groupNo >= x'.nSelectors {
          AnswerBad(Now(x'));
          return x', BadData;
        }
        x' := x'.(groupPos := GROUP_SIZE, gSel := selector[x'.groupNo]);
        x' := x'.(gMinlen := tables[x'.gSel].minLen, gLimit := x'.gSel, gPerm := x'.gSel, gBase := x'.gSel);
        BlockKept(v, b, Now(x'));
        GroupChosen(Now(x'), b, x'.groupNo);
      }
      ghost var v1 := Now(x');
      x' := x'.(groupPos := x'.groupPos - 1, zn := x'.gMinlen);
      state := label0;
      code := Going;
      BlockKept(v1, b, Now(x'));
      GroupKept(v1, b, x'.groupNo, Now(x'));
      AnswerStart(Now(x'), b, x'.groupNo, x'.groupPos, runs);
    }

    // ---------- symbols ----------

    method StepStart(x: Saved, v: int, ghost st: State) returns (x': Saved, code: Code)
      requires Inv() && Holding() && Matches(Now(x), st) && Sane(st) && Sized(st) && st.CodeStart? && v >= 0
      modifies this`state, mtf.mtfa, mtf.mtfbase, store`l, store`cycle, store.Arrays()
      ensures Inv() && Answers(code, Now(x'), Advance(st, v))
      ensures (code != BadData ==> Holding()) && (code == BlockReady ==> store.Linked(origPtr))
    {
      hide Matches, AdvanceHeader, AdvanceTables, TryCode, Layout, ListOf, Used, Answers, InBlock, InGroup, RunsAre, InSymbols;
      hide Column.Fits, Occ, Column.Linked, Sized, GoodBody;
      WindowReady(Now(x), st, Now(x.(zvec := v)));
      x', code := Look(x.(zvec := v), st.b, st.runs);
    }

    method StepMore(x: Saved, v: int, ghost st: State) returns (x': Saved, code: Code)
      requires Inv() && Holding() && Matches(Now(x), st) && Sane(st) && Sized(st) && st.CodeMore? && v >= 0
      modifies this`state, mtf.mtfa, mtf.mtfbase, store`l, store`cycle, store.Arrays()
      ensures Inv() && Answers(code, Now(x'), Advance(st, v))
      ensures (code != BadData ==> Holding()) && (code == BlockReady ==> store.Linked(origPtr))
    {
      hide Matches, AdvanceHeader, AdvanceTables, TryCode, Layout, ListOf, Used, Answers, InBlock, InGroup, RunsAre, InSymbols;
      hide Column.Fits, Occ, Column.Linked, Sized, GoodBody;
      WindowReady(Now(x), st, Now(x.(zj := v, zvec := x.zvec * 2 + v)));
      x', code := Look(x.(zj := v, zvec := x.zvec * 2 + v), st.b, st.runs);
    }

    /** One turn of the loop in GET_MTF_VAL: the window is a code word, or one more bit is needed. */
    method Look(x: Saved, ghost b: Body, ghost runs: Runs) returns (x': Saved, code: Code)
      requires Inv() && Holding() && X_MTF_1 <= state <= X_MTF_6 && InBlock(Now(x), b) && InGroup(Now(x), b, x.groupNo)
      requires InSymbols(b, x.groupNo, x.groupPos, runs) && RunsAre(Now(x), runs, RunLabel(state)) && LevelOk(store.level)
      requires x.gMinlen <= x.zn && 1 <= x.zn <= 21
      modifies this`state, mtf.mtfa, mtf.mtfbase, store`l, store`cycle, store.Arrays()
      ensures Inv() && Answers(code, Now(x'), TryCode(b, x.groupNo, x.groupPos, runs, x.zn, x.zvec))
      ensures (code != BadData ==> Holding()) && (code == BlockReady ==> store.Linked(origPtr))
    {
      hide TryCode, Layout, ListOf, Used, Answers, InBlock, InGroup, RunsAre, InSymbols, Column.Fits, Occ, Column.Linked;
      ghost var v0 := Now(x);
      x' := x;
      if x.zn > 20 {
        TryTooLong(b, x.groupNo, x.groupPos, runs, x.zn, x.zvec);
        AnswerBad(Now(x'));
        return x', BadData;
      }
      GroupFacts(v0, b, x.groupNo);
      BlockNumbers(v0, b);
      LookUp(v0, b, x.groupNo, x.groupPos, runs, x.zn, x.zvec);
      if x.zvec > tables[x.gLimit].limit[x.zn] {
        x' := x.(zn := x.zn + 1);
        state := if StartLabel(state) then state + 1 else state;
        code := Going;
        CodeKept(v0, b, runs, Now(x'));
        AnswerMore(Now(x'), b, x.groupNo, x.groupPos, runs, x.zn + 1, x.zvec);
        return;
      }
      x', code := Decode(x, b, runs);
    }

    /** The window is at most the limit: a symbol, or no code of this table. */
    method Decode(x: Saved, ghost b: Body, ghost runs: Runs) returns (x': Saved, code: Code)
      requires Inv() && Holding() && X_MTF_1 <= state <= X_MTF_6 && InBlock(Now(x), b) && InGroup(Now(x), b, x.groupNo)
      requires InSymbols(b, x.groupNo, x.groupPos, runs) && RunsAre(Now(x), runs, RunLabel(state)) && LevelOk(store.level)
      requires x.gMinlen <= x.zn && 1 <= x.zn <= 20 && 0 <= x.gLimit < |tables| && x.zn < |tables[x.gLimit].limit|
      requires x.zvec <= tables[x.gLimit].limit[x.zn]
      modifies this`state, mtf.mtfa, mtf.mtfbase, store`l, store`cycle, store.Arrays()
      ensures Inv() && Answers(code, Now(x'), TryCode(b, x.groupNo, x.groupPos, runs, x.zn, x.zvec))
      ensures (code != BadData ==> Holding()) && (code == BlockReady ==> store.Linked(origPtr))
    {
      hide TryCode, Layout, ListOf, Used, Answers, InBlock, InGroup, RunsAre, InSymbols, Column.Fits, Occ, Column.Linked;
      ghost var v0 := Now(x);
      x' := x;
      GroupFacts(v0, b, x.groupNo);
      BlockNumbers(v0, b);
      LookUp(v0, b, x.groupNo, x.groupPos, runs, x.zn, x.zvec);
      var r := x.zvec - tables[x.gBase].base[x.zn];
      if r < 0 || r >= MAX_ALPHA_SIZE {
        AnswerBad(Now(x'));
        return x', BadData;
      }
      if r >= x.alphaSize {  // not a code of this table: what an earlier block left there
        AnswerBad(Now(x'));
        return x', BadData;
      }
      var sym := tables[x.gPerm].perm[r];
      x' := x.(nextSym := sym);
      CodeKept(v0, b, runs, Now(x'));
      x', code := TakeSymbol(x', b, runs);
    }

    /** What the symbol just read does. */
    method TakeSymbol(x: Saved, ghost b: Body, ghost runs: Runs) returns (x': Saved, code: Code)
      requires Inv() && Holding() && X_MTF_1 <= state <= X_MTF_6 && InBlock(Now(x), b) && InGroup(Now(x), b, x.groupNo)
      requires InSymbols(b, x.groupNo, x.groupPos, runs) && RunsAre(Now(x), runs, RunLabel(state)) && LevelOk(store.level)
      requires 0 <= x.nextSym < x.alphaSize == AlphaSize(b.inUse)
      modifies this`state, mtf.mtfa, mtf.mtfbase, store`l, store`cycle, store.Arrays()
      ensures Inv() && Answers(code, Now(x'), AfterSymbol(b, x.groupNo, x.groupPos, runs, x.nextSym))
      ensures (code != BadData ==> Holding()) && (code == BlockReady ==> store.Linked(origPtr))
    {
      hide AfterSymbol, Layout, ListOf, Used, Answers, InBlock, InGroup, RunsAre, InSymbols, Column.Fits, Occ, Column.Linked, Flushed, Moved;
      if x.nextSym == RUN_A || x.nextSym == RUN_B {
        x', code := RunDigit(x, b, runs);
      } else {
        x', code := TakeOther(x, b, runs);
      }
    }

    method TakeOther(x: Saved, ghost b: Body, ghost runs: Runs) returns (x': Saved, code: Code)
      requires Inv() && Holding() && X_MTF_1 <= state <= X_MTF_6 && InBlock(Now(x), b) && InGroup(Now(x), b, x.groupNo)
      requires InSymbols(b, x.groupNo, x.groupPos, runs) && RunsAre(Now(x), runs, RunLabel(state)) && LevelOk(store.level)
      requires 2 <= x.nextSym < x.alphaSize == AlphaSize(b.inUse)
      modifies this`state, mtf.mtfa, mtf.mtfbase, store`l, store`cycle, store.Arrays()
      ensures Inv() && Answers(code, Now(x'), AfterSymbol(b, x.groupNo, x.groupPos, runs, x.nextSym))
      ensures (code != BadData ==> Holding()) && (code == BlockReady ==> store.Linked(origPtr))
    {
      hide AfterSymbol, Layout, ListOf, Used, Answers, InBlock, InGroup, RunsAre, InSymbols, Column.Fits, Occ, Column.Linked, Flushed, Moved;
      hide AfterEnd, NextSymbol, GoodBody, RunLabel, LevelOk, AlphaSize, MtfArena.Valid, Column.Holds;
      PlaceFacts(b, x.groupNo, x.groupPos, runs);
      SymbolFacts(Now(x), b, runs, RunLabel(state));
      AfterOther(b, x.groupNo, x.groupPos, runs, x.nextSym);
      var ok;
      x', ok := EndRun(x, b, runs);
      if !ok {
        AnswerBad(Now(x'));
        return x', BadData;
      }
      SymbolFacts(Now(x'), b, Flushed(b, runs), false);
      x', code := EndOrMove(x', b, Flushed(b, runs));
    }

    /** A run in progress is over. */
    method EndRun(x: Saved, ghost b: Body, ghost runs: Runs) returns (x': Saved, ok: bool)
      requires Inv() && Holding() && X_MTF_1 <= state <= X_MTF_6 && InBlock(Now(x), b) && InGroup(Now(x), b, x.groupNo)
      requires GoodBody(b, |b.lens|) && RunsAre(Now(x), runs, RunLabel(state)) && |b.inUse| == |runs.mtf| == 256
      modifies store`l, store.unzftab, store.Cells()
      ensures Inv() && x' == x.(es := x'.es, nblock := x'.nblock)
      ensures RunLabel(state) ==> ok == (|runs.l| + runs.es + 1 <= 100000 * store.level)
      ensures !RunLabel(state) ==> ok && runs.es == -1 && |runs.l| == x.nblock && Flushed(b, runs) == runs
      ensures ok ==> store.Holds() && InBlock(Now(x'), b) && InGroup(Now(x'), b, x.groupNo) && RunsAre(Now(x'), Flushed(b, runs), false)
      ensures ok ==> |Flushed(b, runs).l| <= 100000 * store.level
    {
      hide Layout, ListOf, Used, InBlock, InGroup, RunsAre, Column.Fits, Occ, Flushed;
      ghost var v0 := Now(x);
      if !RunLabel(state) {
        SymbolFacts(v0, b, runs, false);
        NotInRun(b, runs);
        return x, true;
      }
      x', ok := FlushRun(x, b, runs);
      if ok {
        GroupKept(v0, b, x.groupNo, Now(x'));
        SymbolFacts(Now(x'), b, Flushed(b, runs), false);
      }
    }

    /** RUNA or RUNB: another digit of the run. */
    method RunDigit(x0: Saved, ghost b: Body, ghost runs: Runs) returns (x': Saved, code: Code)
      requires Inv() && Holding() && X_MTF_1 <= state <= X_MTF_6 && InBlock(Now(x0), b) && InGroup(Now(x0), b, x0.groupNo)
      requires InSymbols(b, x0.groupNo, x0.groupPos, runs) && RunsAre(Now(x0), runs, RunLabel(state))
      requires (x0.nextSym == RUN_A || x0.nextSym == RUN_B) && x0.nextSym < AlphaSize(b.inUse)
      modifies this`state
      ensures Inv() && Holding() && Answers(code, Now(x'), AfterSymbol(b, x0.groupNo, x0.groupPos, runs, x0.nextSym)) && code != BlockReady
    {
      hide AfterSymbol, Layout, ListOf, Used, Answers, InBlock, InGroup, InSymbols, NextSymbol, Column.Fits, Occ;
      ghost var v0 := Now(x0);
      GroupFacts(v0, b, x0.groupNo);
      AfterDigit(b, x0.groupNo, x0.groupPos, runs, x0.nextSym);
      PlaceFacts(b, x0.groupNo, x0.groupPos, runs);
      var x := if RunLabel(state) then x0 else x0.(es := -1, n := 1);
      x' := x;
      if x.n >= RUN_LIMIT {
        AnswerBad(Now(x'));
        return x', BadData;
      }
      x' := x.(es := x.es + (x.nextSym + 1) * x.n, n := x.n * 2);
      BlockKept(v0, b, Now(x'));
      GroupKept(v0, b, x.groupNo, Now(x'));
      x', code := StartCode(x', X_MTF_3, b, runs.(es := x'.es, n := x'.n));
    }

    /** The run is over: that many copies of the byte at the front of the list. */
    method FlushRun(x: Saved, ghost b: Body, ghost runs: Runs) returns (x': Saved, ok: bool)
      requires Inv() && store.Holds() && InBlock(Now(x), b) && RunsAre(Now(x), runs, true) && |b.inUse| == 256
      modifies store`l, store.unzftab, store.Cells()
      ensures Inv() && ok == (|runs.l| + runs.es + 1 <= 100000 * store.level)
      ensures ok ==> store.Holds() && InBlock(Now(x'), b) && RunsAre(Now(x'), Flushed(b, runs), false)
      ensures x' == x.(es := x'.es, nblock := x'.nblock)
      ensures !ok ==> x' == x
    {
      hide Layout, ListOf, Used, InBlock, Occ, Unmap, Copies;
      ghost var v0 := Now(x);
      BlockNumbers(v0, b);
      EntryByte(v0, b, runs.mtf[0] as int);
      var front := mtf.Head();
      var nblock;
      nblock, ok := store.PushRun(x.nblock, seqToUnseq[front], x.es + 1);
      x' := x;
      if !ok { return; }
      x' := x.(es := 0, nblock := nblock);
      BlockKept(v0, b, Now(x'));
    }

    /** The end of the block, or a list position. */
    method EndOrMove(x: Saved, ghost b: Body, ghost runs: Runs) returns (x': Saved, code: Code)
      requires Inv() && store.Holds() && InBlock(Now(x), b) && InGroup(Now(x), b, x.groupNo) && RunsAre(Now(x), runs, false)
      requires X_MTF_1 <= state <= X_MTF_6 && LevelOk(store.level) && |runs.l| <= 100000 * store.level
      requires 0 <= x.groupPos < GROUP_SIZE && GoodBody(b, |b.lens|) && 2 <= x.nextSym < x.alphaSize == AlphaSize(b.inUse)
      modifies this`state, mtf.mtfa, mtf.mtfbase, store`l, store`cycle, store.Arrays()
      ensures Inv() && (code != BadData ==> Holding()) && (code == BlockReady ==> store.Linked(origPtr))
      ensures Answers(code, Now(x'), AfterEnd(b, x.groupNo, x.groupPos, runs, x.nextSym))
    {
      hide Layout, ListOf, Used, Answers, InBlock, InGroup, GoodBody, NextSymbol, Occ, Column.Linked;
      BlockNumbers(Now(x), b);
      if x.nextSym == x.eob {
        x', code := EndBlock(x, b, runs);
        return;
      }
      if x.nblock >= x.nblockMAX {
        AnswerBad(Now(x));
        return x, BadData;
      }
      x', code := MoveOne(x, b, runs);
    }

    method EndBlock(x: Saved, ghost b: Body, ghost runs: Runs) returns (x': Saved, code: Code)
      requires Inv() && store.Holds() && InBlock(Now(x), b) && RunsAre(Now(x), runs, false) && X_MTF_1 <= state <= X_MTF_6
      modifies this`state, store`cycle, store.Arrays()
      ensures Inv() && Holding() && (code == BlockReady ==> store.Linked(origPtr))
      ensures Answers(code, Now(x'), if b.h.origPtr < 0 || b.h.origPtr >= |runs.l| then DataError else BlockDone(b.h, runs.l))
    {
      hide Layout, ListOf, Used, Answers, InBlock, Occ, Column.Linked;
      BlockNumbers(Now(x), b);
      x' := x;
      if origPtr < 0 || origPtr >= x.nblock {
        AnswerBad(Now(x'));
        return x', BadData;
      }
      var ok := store.Link(x.nblock, origPtr);
      state := X_OUTPUT;
      code := BlockReady;
      AnswerBlock(Now(x'), b.h, runs.l);
    }

    /** A list position: its entry moves to the front, and its byte is written. */
    method MoveOne(x: Saved, ghost b: Body, ghost runs: Runs) returns (x': Saved, code: Code)
      requires Inv() && store.Holds() && InBlock(Now(x), b) && InGroup(Now(x), b, x.groupNo) && RunsAre(Now(x), runs, false)
      requires 0 <= x.groupPos < GROUP_SIZE && GoodBody(b, |b.lens|) && 2 <= x.nextSym <= nInUse <= 256 && |runs.l| < 100000 * store.level
      modifies this`state, mtf.mtfa, mtf.mtfbase, store`l, store.unzftab, store.Cells()
      ensures Inv() && Holding() && code != BlockReady
      ensures Answers(code, Now(x'), NextSymbol(b, x.groupNo, x.groupPos, Moved(b, runs, x.nextSym - 1)))
    {
      hide Layout, ListOf, Used, Answers, InBlock, InGroup, GoodBody, NextSymbol, Occ;
      ghost var v0 := Now(x);
      GroupFacts(v0, b, x.groupNo);
      EntryByte(v0, b, runs.mtf[x.nextSym - 1] as int);
      FrontInUse(runs.mtf, x.nextSym - 1, nInUse);
      var uc := mtf.MoveToFront(x.nextSym - 1);
      store.Push(x.nblock, seqToUnseq[uc]);
      x' := x.(nblock := x.nblock + 1);
      BlockKept(v0, b, Now(x'));
      GroupKept(v0, b, x.groupNo, Now(x'));
      x', code := StartCode(x', X_MTF_5, b, Moved(b, runs, x.nextSym - 1));
    }

    // ---------- the parser ----------

    /** The bits waited for at the label are in: the segment up to the next label. */
    method Step(x: Saved, v: int, ghost st: State) returns (x': Saved, code: Code)
      requires Inv() && Holding() && Matches(Now(x), st) && Sane(st) && Sized(st) && !Halted(st)
      requires v >= 0 && (st.SelectorCount? ==> v < MAX_SELECTORS)
      modifies this`state, this`storedBlockCRC, this`storedCombinedCRC, this`blockRandomised, this`origPtr, this`nInUse, this`len, this`tables
      modifies Owned()
      ensures Inv() && Answers(code, Now(x'), Advance(st, v))
      ensures (code != BadData ==> Holding()) && (code == BlockReady ==> store.Linked(origPtr))
    {
      hide Matches, Answers, Advance, Layout, ListOf, Sane, Sized, Column.Fits, Column.Linked, Occ;
      LabelKind(Now(x), st);
      if state < X_BLKHDR_1 {
        x', code := StepMagic(x, v, st);
      } else if state < X_BCRC_1 {
        x', code := StepBlockHeader(x, v, st);
      } else if state < X_RANDBIT {
        x', code := StepBlockCrc(x, v, st);
      } else if state == X_RANDBIT {
        x', code := StepRandBit(x, v, st);
      } else if state < X_MAPPING_1 {
        x', code := StepOrigPtr(x, v, st);
      } else if state >= X_CCRC_1 {
        x', code := StepCombinedCrc(x, v, st);
      } else if state >= X_ENDHDR_2 {
        x', code := StepEndHeader(x, v, st);
      } else {
        x', code := StepBody(x, v, st);
      }
    }

    /** The labels between the block header and the end of the block. */
    method StepBody(x: Saved, v: int, ghost st: State) returns (x': Saved, code: Code)
      requires Inv() && Holding() && Matches(Now(x), st) && Sane(st) && Sized(st) && !Halted(st) && X_MAPPING_1 <= state <= X_MTF_6
      requires v >= 0 && (st.SelectorCount? ==> v < MAX_SELECTORS)
      modifies this`state, this`nInUse, this`len, this`tables
      modifies inUse16, inUse, seqToUnseq, selectorMtf, selector, mtf.mtfa, mtf.mtfbase, store`l, store`cycle, store.Arrays()
      ensures Inv() && Answers(code, Now(x'), Advance(st, v))
      ensures (code != BadData ==> Holding()) && (code == BlockReady ==> store.Linked(origPtr))
    {
      hide Matches, Answers, Advance, Layout, ListOf, Sane, Sized, Column.Fits, Column.Linked, Occ;
      LabelKind(Now(x), st);
      if state == X_MAPPING_1 {
        x', code := StepMapping1(x, v, st);
      } else if state == X_MAPPING_2 {
        x', code := StepMapping2(x, v, st);
      } else if state == X_SELECTOR_1 {
        x', code := StepGroups(x, v, st);
      } else if state == X_SELECTOR_2 {
        x', code := StepCount(x, v, st);
      } else if state == X_SELECTOR_3 {
        x', code := StepSelector(x, v, st);
      } else if state == X_CODING_1 {
        x', code := StepCoding1(x, v, st);
      } else if state == X_CODING_2 {
        x', code := StepCoding2(x, v, st);
      } else if state == X_CODING_3 {
        x', code := StepCoding3(x, v, st);
      } else if StartLabel(state) {
        x', code := StepStart(x, v, st);
      } else {
        x', code := StepMore(x, v, st);
      }
    }

    /**
     * BZ2_decompress.  Whatever its variables hold on entry, it continues from the save area exactly where the
     * abstract parser stands, and runs as far as that one would on the bits there are; what it saves on the way out
     * is all the next call needs.
     */
    method Decompress(ghost st0: State) returns (code: Code, ghost st: State)
      requires Inv() && Holding() && bs.Valid() && Matches(Now(saved), st0) && Sane(st0) && Sized(st0) && !Halted(st0)
      requires Lean(bs.bsLive, st0)
      modifies this, bs, Owned()
      ensures Inv() && bs.Valid() && Sane(st) && Sized(st) && Paused(st, bs.Ahead()) == Exec(st0, old(bs.Ahead()))
      ensures Lean(bs.bsLive, st) && EndOf(bs.input, old(bs.input))
      ensures code == Going ==> Holding() && Matches(Now(saved), st) && !Halted(st) && |bs.Ahead()| < Need(st) && bs.input == []
      ensures code != Going ==> Answers(code, Now(saved), st) && Halted(st)
      ensures code == BlockReady ==> store.Linked(origPtr)
    {
      hide Matches, Answers, Advance, Layout, ListOf, Sane, Sized, Column.Fits, Column.Linked, Occ, AheadOf, Need, Exec;
      var x: Saved := *;
      MagicSaved(Now(saved), st0);
      if state == X_MAGIC_1 { saved := NOTHING_SAVED; }
      x := saved;
      x, code, st := Run(x, st0);
      saved := x;
    }

    /** From label to label until a block or the stream is complete, an error shows or the input gives out. */
    method Run(x0: Saved, ghost st0: State) returns (x: Saved, code: Code, ghost st: State)
      requires Inv() && Holding() && bs.Valid() && Matches(Now(x0), st0) && Sane(st0) && Sized(st0) && !Halted(st0)
      requires Lean(bs.bsLive, st0)
      modifies this`state, this`storedBlockCRC, this`storedCombinedCRC, this`blockRandomised, this`origPtr, this`nInUse, this`len, this`tables
      modifies bs, Owned()
      ensures Inv() && bs.Valid() && Sane(st) && Sized(st) && Paused(st, bs.Ahead()) == Exec(st0, old(bs.Ahead()))
      ensures Lean(bs.bsLive, st) && EndOf(bs.input, old(bs.input))
      ensures code == Going ==> Holding() && Matches(Now(x), st) && !Halted(st) && |bs.Ahead()| < Need(st) && bs.input == []
      ensures code != Going ==> Answers(code, Now(x), st) && Halted(st)
      ensures code == BlockReady ==> store.Linked(origPtr)
    {
      hide Matches, Answers, Advance, Layout, ListOf, Sane, Sized, Column.Fits, Column.Linked, Occ, AheadOf, Need, Exec;
      x, code, st := x0, Going, st0;
      EndOfSelf(bs.input);
      var enough := true;
      while code == Going && enough
        invariant Inv() && bs.Valid() && Sane(st) && Sized(st) && Exec(st, bs.Ahead()) == Exec(st0, old(bs.Ahead()))
        invariant Lean(bs.bsLive, st) && EndOf(bs.input, old(bs.input))
        invariant code == Going ==> Holding() && Matches(Now(x), st) && !Halted(st)
        invariant code != Going ==> Answers(code, Now(x), st) && Halted(st)
        invariant code == BlockReady ==> store.Linked(origPtr)
        invariant !enough ==> code == Going && |bs.Ahead()| < Need(st) && bs.input == []
        decreases |bs.Ahead()|, enough
      {
        ghost var left := bs.input;
        x, code, enough, st := Turn(x, st);
        EndOfEnd(bs.input, left, old(bs.input));
      }
      ExecStops(st, bs.Ahead());
    }

    /** Waits for the bits of the label, and if they are there runs on to the next one. */
    method Turn(x: Saved, ghost st: State) returns (x': Saved, code: Code, enough: bool, ghost st': State)
      requires Inv() && Holding() && bs.Valid() && Matches(Now(x), st) && Sane(st) && Sized(st) && !Halted(st)
      requires Lean(bs.bsLive, st)
      modifies this`state, this`storedBlockCRC, this`storedCombinedCRC, this`blockRandomised, this`origPtr, this`nInUse, this`len, this`tables
      modifies bs, Owned()
      ensures Lean(bs.bsLive, st') && EndOf(bs.input, old(bs.input))
      ensures Inv() && bs.Valid() && Sane(st') && Sized(st') && Exec(st', bs.Ahead()) == Exec(st, old(bs.Ahead()))
      ensures code == Going ==> Holding() && Matches(Now(x'), st') && !Halted(st')
      ensures code != Going ==> Answers(code, Now(x'), st') && Halted(st')
      ensures code == BlockReady ==> store.Linked(origPtr)
      ensures if enough then |bs.Ahead()| < |old(bs.Ahead())|
              else code == Going && bs.Ahead() == old(bs.Ahead()) && |bs.Ahead()| < Need(st') && bs.input == []
    {
      hide Matches, Answers, Advance, Layout, ListOf, Sane, Sized, Column.Fits, Column.Linked, Occ, AheadOf, Need, Exec;
      ghost var bits := bs.Ahead();
      x', code, st' := x, Going, st;
      var n := Width(state, x);
      TurnFacts(Now(x), st, bits);
      var v;
      enough, v := bs.GetBits(n);
      if enough {
        x', code := Step(x, v, st);
        st' := Advance(st, v);
        AnswerHalts(code, Now(x'), st');
      }
    }
  }
}
