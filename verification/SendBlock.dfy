/** Writing a compressed block: each section of the format through the bit buffer. */
module SendBlock {
  import opened Permutations
  import opened Bits
  import opened BitIO
  import opened CanonicalCodes
  import opened MoveToFront
  import opened GenerateMtf
  import opened DecodeMachine
  import opened BlockFormat
  import opened ChooseTables

  lemma OneBit(b: bool)
    ensures ToBits(if b then 1 else 0, 1) == [b] && Pow2(1) == 2
  {
    var v := if b then 1 else 0;
    assert ToBits(v, 1) == ToBits(v / 2, 0) + [v % 2 == 1];
    assert Pow2(1) == 2 * Pow2(0);
  }

  method PutBit(w: BitWriter, b: bool)
    requires w.Valid()
    modifies w
    ensures w.Valid() && w.Contents() == old(w.Contents()) + [b] && w.drained == old(w.drained)
  {
    OneBit(b);
    hide BitWriter.Valid, BitWriter.Contents;
    w.Put(1, if b then 1 else 0);
  }

  method PutBytes(w: BitWriter, m: seq<int>)
    requires w.Valid() && forall i :: 0 <= i < |m| ==> 0 <= m[i] < 256
    modifies w
    ensures w.Valid() && w.Contents() == old(w.Contents()) + Bytes(m) && w.drained == old(w.drained)
  {
    hide BitWriter.Valid, BitWriter.Contents, ToBits;
    ghost var before := w.Contents();
    assert m[0..] == m && [] + Bytes(m) == Bytes(m);
    assert before + [] == before;
    ghost var done: seq<bool> := [];
    for i := 0 to |m|
      invariant w.Valid() && w.Contents() == before + done && done + Bytes(m[i..]) == Bytes(m) && w.drained == old(w.drained)
    {
      assert m[i..][0] == m[i] && m[i..][1..] == m[i + 1..];
      w.PutUChar(m[i]);
      Assoc(before, done, ToBits(m[i], 8));
      Assoc(done, ToBits(m[i], 8), Bytes(m[i + 1..]));
      done := done + ToBits(m[i], 8);
    }
    assert m[|m|..] == [];
    assert done + [] == done;
  }

  // ---------- mapping ----------

  method GroupInUse(inUse: array<bool>, g: int) returns (used: bool)
    requires inUse.Length == 256 && 0 <= g < 16
    ensures used == GroupUsed(inUse[..], g)
  {
    used := false;
    for j := 0 to 16
      invariant used <==> exists x :: 16 * g <= x < 16 * g + j && inUse[..][x]
    {
      ghost var seen := used;
      if inUse[g * 16 + j] {
        used := true;
        assert inUse[..][16 * g + j];
      }
    }
  }

  method SendMap(w: BitWriter, inUse: array<bool>)
    requires w.Valid() && inUse.Length == 256
    modifies w
    ensures w.Valid() && w.Contents() == old(w.Contents()) + MapBits(inUse[..]) && w.drained == old(w.drained)
  {
    hide BitWriter.Valid, BitWriter.Contents, GroupUsed;
    ghost var before, u := w.Contents(), Groups(inUse[..]);
    assert before + u[..0] == before;
    var used16 := seq(16, _ => false);
    for i := 0 to 16
      invariant w.Valid() && w.Contents() == before + u[..i] && w.drained == old(w.drained)
      invariant |used16| == 16 && forall g :: 0 <= g < i ==> used16[g] == u[g]
    {
      var b := GroupInUse(inUse, i);
      assert b == u[i];
      used16 := used16[i := b];
      PutBit(w, b);
      assert u[..i] + [u[i]] == u[..i + 1];
    }
    assert u[..16] == u;
    assert used16 == u;
    SendGroups(w, inUse, used16, before + u);
    Assoc(before, u, MapFrom(u, inUse[..], 0));
  }

  method SendGroups(w: BitWriter, inUse: array<bool>, used16: seq<bool>, ghost before: seq<bool>)
    requires w.Valid() && inUse.Length == 256 && w.Contents() == before
    requires |used16| == 16
    modifies w
    ensures w.Valid() && w.Contents() == before + MapFrom(used16, inUse[..], 0) && w.drained == old(w.drained)
  {
    hide BitWriter.Valid, BitWriter.Contents;
    ghost var use := inUse[..];
    ghost var done: seq<bool> := [];
    assert before + [] == before && [] + MapFrom(used16, use, 0) == MapFrom(used16, use, 0);
    for i := 0 to 16
      invariant w.Valid() && w.Contents() == before + done && w.drained == old(w.drained)
      invariant done + MapFrom(used16, use, 16 * i) == MapFrom(used16, use, 0)
    {
      if used16[i] {
        for j := 0 to 16
          invariant w.Valid() && w.Contents() == before + done && w.drained == old(w.drained)
          invariant done + MapFrom(used16, use, 16 * i + j) == MapFrom(used16, use, 0)
        {
          var b := inUse[i * 16 + j];
          assert (16 * i + j) / 16 == i;
          PutBit(w, b);
          Assoc(before, done, [b]);
          Assoc(done, [b], MapFrom(used16, use, 16 * i + j + 1));
          done := done + [b];
        }
      } else {
        SkipGroup(used16, use, i, 16);
      }
    }
    assert MapFrom(used16, use, 256) == [] && done + [] == done;
  }

  lemma {:induction false} SkipGroup(used16: seq<bool>, inUse: seq<bool>, g: nat, j: nat)
    requires |used16| == 16 && |inUse| == 256 && g < 16 && !used16[g] && j <= 16
    ensures MapFrom(used16, inUse, 16 * (g + 1) - j) == MapFrom(used16, inUse, 16 * (g + 1))
    decreases j
  {
    if j > 0 {
      SkipGroup(used16, inUse, g, j - 1);
      assert (16 * (g + 1) - j) / 16 == g;
    }
  }

  // ---------- selectors ----------

  /** Move-to-front coding of one selector, shifting the list as it searches. */
  method SelectOne(pos: seq<int>, v: int) returns (j: int, pos': seq<int>)
    requires Injective(pos) && v in pos
    ensures 0 <= j < |pos| && j == PosOf(pos, v) && pos' == Front(pos, j)
  {
    ghost var k := PosOf(pos, v);
    forall x | 0 <= x < k ensures pos[x] != v { assert pos[..k][x] == pos[x]; }
    j := 0;
    var tmp := pos[0];
    pos' := pos;
    while v != tmp
      invariant 0 <= j <= k && |pos'| == |pos| && tmp == pos[j]
      invariant forall x :: 0 <= x < j ==> pos'[x + 1] == pos[x]
      invariant forall x :: j < x < |pos| ==> pos'[x] == pos[x]
      decreases k - j
    {
      j := j + 1;
      var tmp2 := tmp;
      tmp := pos'[j];
      pos' := pos'[j := tmp2];
    }
    pos' := pos'[0 := tmp];
    FrontIs(pos, j, pos');
  }

  method PutUnary(w: BitWriter, j: int)
    requires w.Valid() && j >= 0
    modifies w
    ensures w.Valid() && w.Contents() == old(w.Contents()) + Unary(j) && w.drained == old(w.drained)
  {
    hide BitWriter.Valid, BitWriter.Contents;
    ghost var before := w.Contents();
    ghost var done: seq<bool> := [];
    assert before + [] == before && [] + Unary(j) == Unary(j);
    for i := 0 to j
      invariant w.Valid() && w.Contents() == before + done && done + Unary(j - i) == Unary(j) && w.drained == old(w.drained)
    {
      PutBit(w, true);
      Assoc(before, done, [true]);
      Assoc(done, [true], Unary(j - i - 1));
      done := done + [true];
    }
    PutBit(w, false);
    Assoc(before, done, [false]);
  }

  method SendSelectors(w: BitWriter, plan: Plan)
    requires w.Valid() && 2 <= |plan.lens| <= 6 && 1 <= |plan.sel| < 32768
    requires forall i :: 0 <= i < |plan.sel| ==> 0 <= plan.sel[i] < |plan.lens|
    modifies w
    ensures w.Valid() && w.Contents() == old(w.Contents()) + SelectorBits(plan) && w.drained == old(w.drained)
  {
    hide BitWriter.Valid, BitWriter.Contents, ToBits, Pow2, Unaries, Select, Numbers;
    SmallPowers();
    SelectorsIn(plan);
    ghost var c := w.Contents();
    w.Put(3, |plan.lens|);
    w.Put(15, |plan.sel|);
    ghost var mtf := Select(Numbers(|plan.lens|), plan.sel);
    SendUnaries(w, plan);
    Assoc(c, ToBits(|plan.lens|, 3), ToBits(|plan.sel|, 15));
    Assoc(c, ToBits(|plan.lens|, 3) + ToBits(|plan.sel|, 15), Unaries(mtf));
  }

  /** The selectors, move-to-front coded, in unary. */
  method SendUnaries(w: BitWriter, plan: Plan)
    requires w.Valid() && Injective(Numbers(|plan.lens|)) && AllIn(plan.sel, Numbers(|plan.lens|)) && |plan.lens| <= 6
    modifies w
    ensures w.Valid() && w.Contents() == old(w.Contents()) + Unaries(Select(Numbers(|plan.lens|), plan.sel)) && w.drained == old(w.drained)
  {
    hide BitWriter.Valid, BitWriter.Contents, Unary, ToBits, Pow2, Unaries, Select, Numbers, Injective, AllIn, Front;
    ghost var mtf := Select(Numbers(|plan.lens|), plan.sel);
    ghost var before := w.Contents();
    ghost var done: seq<bool> := [];
    var pos := Numbers(|plan.lens|);
    assert plan.sel[0..] == plan.sel && before + [] == before && [] + Unaries(mtf) == Unaries(mtf);
    for i := 0 to |plan.sel|
      invariant w.Valid() && w.Contents() == before + done && w.drained == old(w.drained) && |pos| <= 6
      invariant Injective(pos) && AllIn(plan.sel[i..], pos) && done + Unaries(Select(pos, plan.sel[i..])) == Unaries(mtf)
    {
      ghost var rest, pos0 := plan.sel[i..], pos;
      SelectFirst(pos0, rest);
      var j;
      j, pos := SelectOne(pos, plan.sel[i]);
      assert rest[1..] == plan.sel[i + 1..];
      PutUnary(w, j);
      Assoc(before, done, Unary(j));
      Assoc(done, Unary(j), Unaries(Select(pos, plan.sel[i + 1..])));
      done := done + Unary(j);
    }
    NoSelectors(pos, plan.sel[|plan.sel|..]);
    assert done + [] == done;
  }

  lemma NoSelectors(pos: seq<int>, sel: seq<int>)
    requires Injective(pos) && AllIn(sel, pos) && sel == []
    ensures Unaries(Select(pos, sel)) == []
  {
  }

  lemma SelectFirst(pos: seq<int>, sel: seq<int>)
    requires Injective(pos) && AllIn(sel, pos) && sel != []
    ensures sel[0] in pos && Injective(Front(pos, PosOf(pos, sel[0]))) && AllIn(sel[1..], Front(pos, PosOf(pos, sel[0])))
    ensures Unaries(Select(pos, sel)) == Unary(PosOf(pos, sel[0])) + Unaries(Select(Front(pos, PosOf(pos, sel[0])), sel[1..]))
  {
    RestIn(sel, pos);
    FrontMembers(pos, PosOf(pos, sel[0]));
    var m := Select(pos, sel);
    assert m[1..] == Select(Front(pos, PosOf(pos, sel[0])), sel[1..]);
  }

  // ---------- code lengths ----------

  lemma DeltaBits()
    ensures ToBits(2, 2) == [true, false] && ToBits(3, 2) == [true, true] && ToBits(0, 1) == [false]
  {
    assert ToBits(2, 2) == ToBits(1, 1) + [false] && ToBits(1, 1) == ToBits(0, 0) + [true];
    assert ToBits(3, 2) == ToBits(1, 1) + [true] && ToBits(0, 1) == ToBits(0, 0) + [false];
  }

  /** The steps from one length to the next: up, then down, then the end mark. */
  method PutDelta(w: BitWriter, curr0: int, want: int) returns (curr: int)
    requires w.Valid()
    modifies w
    ensures w.Valid() && w.Contents() == old(w.Contents()) + Delta(curr0, want) && curr == want && w.drained == old(w.drained)
  {
    hide BitWriter.Valid, BitWriter.Contents, ToBits, Pow2;
    SmallPowers();
    DeltaBits();
    ghost var before := w.Contents();
    ghost var done: seq<bool> := [];
    assert before + [] == before && [] + Delta(curr0, want) == Delta(curr0, want);
    curr := curr0;
    while curr < want
      invariant w.Valid() && w.Contents() == before + done && w.drained == old(w.drained)
      invariant done + Delta(curr, want) == Delta(curr0, want) && (curr0 <= curr <= want || curr == curr0 > want)
    {
      w.Put(2, 2);
      Assoc(before, done, [true, false]);
      Assoc(done, [true, false], Delta(curr + 1, want));
      done := done + [true, false];
      curr := curr + 1;
    }
    while curr > want
      invariant w.Valid() && w.Contents() == before + done && w.drained == old(w.drained)
      invariant done + Delta(curr, want) == Delta(curr0, want) && curr >= want
    {
      w.Put(2, 3);
      Assoc(before, done, [true, true]);
      Assoc(done, [true, true], Delta(curr - 1, want));
      done := done + [true, true];
      curr := curr - 1;
    }
    w.Put(1, 0);
    Assoc(before, done, [false]);
  }

  method SendLengths(w: BitWriter, len: seq<int>)
    requires w.Valid() && len != [] && forall i :: 0 <= i < |len| ==> 1 <= len[i] <= 20
    modifies w
    ensures w.Valid() && w.Contents() == old(w.Contents()) + LengthBits(len) && w.drained == old(w.drained)
  {
    hide BitWriter.Valid, BitWriter.Contents, ToBits, Pow2, Delta;
    SmallPowers();
    ghost var c := w.Contents();
    var curr := len[0];
    w.Put(5, curr);
    ghost var before := w.Contents();
    ghost var done: seq<bool> := [];
    assert len[0..] == len && before + [] == before && [] + Deltas(curr, len) == Deltas(curr, len);
    for i := 0 to |len|
      invariant w.Valid() && w.Contents() == before + done && w.drained == old(w.drained)
      invariant done + Deltas(curr, len[i..]) == Deltas(len[0], len)
    {
      assert len[i..][0] == len[i] && len[i..][1..] == len[i + 1..];
      ghost var d := Delta(curr, len[i]);
      curr := PutDelta(w, curr, len[i]);
      Assoc(before, done, d);
      Assoc(done, d, Deltas(curr, len[i + 1..]));
      done := done + d;
    }
    assert len[|len|..] == [] && done + [] == done;
    Assoc(c, ToBits(len[0], 5), done);
  }

  method SendTables(w: BitWriter, lens: seq<seq<int>>)
    requires w.Valid() && forall t :: 0 <= t < |lens| ==> lens[t] != []
    requires forall t, i :: 0 <= t < |lens| && 0 <= i < |lens[t]| ==> 1 <= lens[t][i] <= 20
    modifies w
    ensures w.Valid() && w.Contents() == old(w.Contents()) + TableBits(lens) && w.drained == old(w.drained)
  {
    hide BitWriter.Valid, BitWriter.Contents, LengthBits;
    ghost var before := w.Contents();
    ghost var done: seq<bool> := [];
    assert lens[0..] == lens && before + [] == before && [] + TableBits(lens) == TableBits(lens);
    for t := 0 to |lens|
      invariant w.Valid() && w.Contents() == before + done && w.drained == old(w.drained)
      invariant done + TableBits(lens[t..]) == TableBits(lens)
    {
      assert lens[t..][0] == lens[t] && lens[t..][1..] == lens[t + 1..];
      SendLengths(w, lens[t]);
      Assoc(before, done, LengthBits(lens[t]));
      Assoc(done, LengthBits(lens[t]), TableBits(lens[t + 1..]));
      done := done + LengthBits(lens[t]);
    }
    assert lens[|lens|..] == [] && done + [] == done;
  }

  // ---------- symbols ----------

  /** The codes of every table. */
  ghost predicate CodesFor(codes: seq<seq<int>>, lens: seq<seq<int>>, alphaSize: int) {
    |codes| == |lens| && forall t :: 0 <= t < |lens| ==> CodesOf(codes[t], lens[t], alphaSize)
  }

  ghost predicate CodesOf(code: seq<int>, len: seq<int>, alphaSize: int) {
    |code| == |len| == alphaSize && forall v :: 0 <= v < alphaSize ==> len[v] >= 0 && code[v] == CodeOf(len, v)
  }

  lemma CodeAt(codes: seq<seq<int>>, lens: seq<seq<int>>, alphaSize: int, t: int, v: int)
    requires CodesFor(codes, lens, alphaSize) && 0 <= t < |lens| && 0 <= v < alphaSize
    ensures |codes| == |lens| && |codes[t]| == |lens[t]| == alphaSize && lens[t][v] >= 0 && codes[t][v] == CodeOf(lens[t], v)
  {
    assert CodesOf(codes[t], lens[t], alphaSize);
  }

  method AssignAll(lens: seq<seq<int>>, alphaSize: int) returns (codes: seq<seq<int>>)
    requires alphaSize >= 1 && forall t :: 0 <= t < |lens| ==> |lens[t]| == alphaSize
    requires forall t, i :: 0 <= t < |lens| && 0 <= i < alphaSize ==> 1 <= lens[t][i] <= 17
    ensures CodesFor(codes, lens, alphaSize)
  {
    hide CodesOf;
    codes := [];
    for t := 0 to |lens|
      invariant |codes| == t && forall u :: 0 <= u < t ==> CodesOf(codes[u], lens[u], alphaSize)
    {
      var code := AssignOne(lens[t], alphaSize);
      codes := codes + [code];
    }
  }

  method AssignOne(row: seq<int>, alphaSize: int) returns (code: seq<int>)
    requires alphaSize >= 1 && |row| == alphaSize && forall i :: 0 <= i < alphaSize ==> 1 <= row[i] <= 17
    ensures CodesOf(code, row, alphaSize)
  {
    var len, codeRow := new int[alphaSize](i requires 0 <= i < |row| => row[i]), new int[alphaSize];
    assert len[..alphaSize] == row;
    hide CodeOf;
    var minLen, maxLen := LengthRange(len, alphaSize);
    assert maxLen <= 17 && minLen >= 1;  // assertions 3004 and 3005
    AssignCodes(codeRow, len, minLen, maxLen, alphaSize);
    code := codeRow[..];
  }

  method LengthRange(len: array<int>, alphaSize: int) returns (minLen: int, maxLen: int)
    requires 1 <= alphaSize <= len.Length && forall i :: 0 <= i < alphaSize ==> 1 <= len[i] <= 17
    ensures 1 <= minLen && maxLen <= 17 && forall i :: 0 <= i < alphaSize ==> minLen <= len[i] <= maxLen
  {
    minLen, maxLen := 32, 0;
    for i := 0 to alphaSize
      invariant forall x :: 0 <= x < i ==> minLen <= len[x] <= maxLen
      invariant 1 <= minLen && maxLen <= 17
    {
      if len[i] > maxLen { maxLen := len[i]; }
      if len[i] < minLen { minLen := len[i]; }
    }
  }

  method SendSymbols(w: BitWriter, ptr: array<int>, nMTF: int, plan: Plan, codes: seq<seq<int>>, alphaSize: int, ghost syms: seq<int>)
    requires w.Valid() && Holds(ptr[..], syms, alphaSize) && nMTF == |syms| && GoodPlan(plan, alphaSize, nMTF)
    requires CodesFor(codes, plan.lens, alphaSize)
    modifies w
    ensures GoodSymbols(plan, syms)
    ensures w.Valid() && w.Contents() == old(w.Contents()) + SymbolBits(plan, syms, 0) && w.drained == old(w.drained)
  {
    hide BitWriter.Valid, BitWriter.Contents, SymbolBits, GoodSymbols, Holds, Sent, GoodPlan, CodesFor, AtGroup;
    PlanSymbols(plan, alphaSize, syms, ptr[..]);
    ghost var before := w.Contents();
    ghost var done := SentNone(plan, syms);
    assert before + [] == before;
    GroupsStart(nMTF);
    var selCtr, gs := 0, 0;
    while gs < nMTF
      invariant w.Valid() && w.Contents() == before + done && w.drained == old(w.drained)
      invariant 0 <= gs <= nMTF && AtGroup(gs, selCtr, nMTF) && Sent(plan, syms, done, gs)
    {
      var ge := gs + GROUP_SIZE - 1;
      if ge >= nMTF { ge := nMTF - 1; }
      NextGroup(gs, ge, selCtr, nMTF);
      assert plan.sel[selCtr] < |plan.lens|;  // assertion 3006
      done := SendGroup(w, ptr, gs, ge, plan, selCtr, codes, alphaSize, syms, before, done);
      gs, selCtr := ge + 1, selCtr + 1;
    }
    LastGroup(selCtr, nMTF);
    assert selCtr == |plan.sel|;  // assertion 3007
    SentAll(plan, syms, done);
  }

  /** Symbol gs begins group selCtr, or all groups are done. */
  ghost predicate AtGroup(gs: int, selCtr: int, n: int) {
    selCtr == (gs + GROUP_SIZE - 1) / GROUP_SIZE && (gs < n ==> gs % GROUP_SIZE == 0)
  }

  lemma GroupsStart(n: int)
    ensures AtGroup(0, 0, n)
  {
  }

  lemma LastGroup(selCtr: int, n: int)
    requires AtGroup(n, selCtr, n)
    ensures selCtr == (n + GROUP_SIZE - 1) / GROUP_SIZE
  {
  }

  /** The words of the symbols before x have gone out. */
  ghost predicate Sent(plan: Plan, syms: seq<int>, done: seq<bool>, x: int) {
    GoodSymbols(plan, syms) && 0 <= x <= |syms| && done + SymbolBits(plan, syms, x) == SymbolBits(plan, syms, 0)
  }

  lemma SentNone(plan: Plan, syms: seq<int>) returns (done: seq<bool>)
    requires GoodSymbols(plan, syms)
    ensures done == [] && Sent(plan, syms, done, 0)
  {
    done := [];
    assert [] + SymbolBits(plan, syms, 0) == SymbolBits(plan, syms, 0);
  }

  lemma SentAll(plan: Plan, syms: seq<int>, done: seq<bool>)
    requires Sent(plan, syms, done, |syms|)
    ensures done == SymbolBits(plan, syms, 0)
  {
    assert done + [] == done;
  }

  lemma SentOne(plan: Plan, syms: seq<int>, done: seq<bool>, gs: int, x: int, g: int)
    requires Sent(plan, syms, done, x) && x < |syms| && 0 <= gs <= x < gs + GROUP_SIZE && gs % GROUP_SIZE == 0 && g == gs / GROUP_SIZE
    ensures 0 <= g < |plan.sel| && 0 <= plan.sel[g] < |plan.lens|
    ensures 0 <= syms[x] < |plan.lens[plan.sel[g]]| && 0 <= plan.lens[plan.sel[g]][syms[x]]
    ensures Sent(plan, syms, done + Word(plan.lens[plan.sel[g]], syms[x]), x + 1)
  {
    InGroup(gs, x);
    hide Word;
    Assoc(done, Word(plan.lens[plan.sel[g]], syms[x]), SymbolBits(plan, syms, x + 1));
  }

  lemma SymbolHeld(w: seq<int>, syms: seq<int>, alphaSize: int, i: int)
    requires Holds(w, syms, alphaSize) && 0 <= i < |syms|
    ensures i < 2 * |w| && Half(w, i) == syms[i] && 0 <= syms[i] < alphaSize
  {
  }

  /** One group of symbols, coded with its table. */
  method SendGroup(w: BitWriter, ptr: array<int>, gs: int, ge: int, plan: Plan, selCtr: int, codes: seq<seq<int>>, alphaSize: int,
                   ghost syms: seq<int>, ghost before: seq<bool>, ghost done0: seq<bool>)
    returns (ghost done: seq<bool>)
    requires w.Valid() && w.Contents() == before + done0 && Holds(ptr[..], syms, alphaSize) && Sent(plan, syms, done0, gs)
    requires GoodPlan(plan, alphaSize, |syms|)
    requires CodesFor(codes, plan.lens, alphaSize)
    requires 0 <= gs <= ge < |syms| && gs % GROUP_SIZE == 0 && ge - gs < GROUP_SIZE && selCtr == gs / GROUP_SIZE < |plan.sel|
    modifies w
    ensures w.Valid() && w.Contents() == before + done && w.drained == old(w.drained)
    ensures Sent(plan, syms, done, ge + 1)
  {
    hide *;
    done := done0;
    for i := gs to ge + 1
      invariant w.Valid() && w.Contents() == before + done && w.drained == old(w.drained)
      invariant Holds(ptr[..], syms, alphaSize) && Sent(plan, syms, done, i)
    {
      done := SendSymbol(w, ptr, gs, i, plan, selCtr, codes, alphaSize, syms, before, done);
    }
  }

  method SendSymbol(w: BitWriter, ptr: array<int>, ghost gs: int, i: int, plan: Plan, selCtr: int, codes: seq<seq<int>>, alphaSize: int,
                    ghost syms: seq<int>, ghost before: seq<bool>, ghost done: seq<bool>)
    returns (ghost next: seq<bool>)
    requires w.Valid() && w.Contents() == before + done && Holds(ptr[..], syms, alphaSize) && Sent(plan, syms, done, i)
    requires GoodPlan(plan, alphaSize, |syms|)
    requires CodesFor(codes, plan.lens, alphaSize)
    requires 0 <= gs <= i < |syms| && gs % GROUP_SIZE == 0 && i - gs < GROUP_SIZE && selCtr == gs / GROUP_SIZE < |plan.sel|
    modifies w
    ensures w.Valid() && w.Contents() == before + next && w.drained == old(w.drained)
    ensures Sent(plan, syms, next, i + 1)
  {
    GroupTable(plan, alphaSize, |syms|, selCtr);
    SymbolHeld(ptr[..], syms, alphaSize, i);
    hide BitWriter.Valid, BitWriter.Contents, Word, Half, Decodable, CodeOf, GoodPlan, Holds, Sent, CodesFor, Mtfv;
    var t, v := plan.sel[selCtr], Mtfv(ptr, i);
    CodeAt(codes, plan.lens, alphaSize, t, v);
    SentOne(plan, syms, done, gs, i, selCtr);
    next := done + Word(plan.lens[t], v);
    PutWord(w, plan.lens[t], v, codes[t][v], plan.lens[t][v], before, done, next);
  }

  lemma InGroup(gs: int, i: int)
    requires 0 <= gs <= i < gs + GROUP_SIZE && gs % GROUP_SIZE == 0
    ensures i / GROUP_SIZE == gs / GROUP_SIZE
  {
  }

  lemma NextGroup(gs: int, ge: int, selCtr: int, n: int)
    requires 0 <= gs <= ge < n && AtGroup(gs, selCtr, n) && ge == if gs + GROUP_SIZE - 1 >= n then n - 1 else gs + GROUP_SIZE - 1
    ensures selCtr == gs / GROUP_SIZE && gs % GROUP_SIZE == 0 && 0 <= selCtr < (n + GROUP_SIZE - 1) / GROUP_SIZE
    ensures AtGroup(ge + 1, selCtr + 1, n) && ge - gs < GROUP_SIZE
  {
  }

  method PutWord(w: BitWriter, ghost len: seq<int>, v: int, code: int, n: int,
                 ghost before: seq<bool>, ghost done: seq<bool>, ghost next: seq<bool>)
    requires w.Valid() && w.Contents() == before + done && Decodable(len, 20) && 0 <= v < |len| && n == len[v] && n >= 0 && code == CodeOf(len, v)
    requires next == done + Word(len, v)
    modifies w
    ensures w.Valid() && w.Contents() == before + next && w.drained == old(w.drained)
  {
    WordFits(len, v);
    hide BitWriter.Valid, BitWriter.Contents, ToBits, Pow2, Word, Decodable, CodeOf;
    w.Put(n, code);
    Assoc(before, done, Word(len, v));
  }

  lemma GroupTable(plan: Plan, alphaSize: int, nMTF: int, g: int)
    requires GoodPlan(plan, alphaSize, nMTF) && 0 <= g < |plan.sel|
    ensures 0 <= plan.sel[g] < |plan.lens| && |plan.lens[plan.sel[g]]| == alphaSize && Decodable(plan.lens[plan.sel[g]], 20)
  {
    assert GoodLengths(plan.lens[plan.sel[g]], alphaSize);
  }

  lemma PlanSymbols(plan: Plan, alphaSize: int, syms: seq<int>, w: seq<int>)
    requires GoodPlan(plan, alphaSize, |syms|) && Holds(w, syms, alphaSize)
    ensures GoodSymbols(plan, syms) && |plan.sel| == (|syms| + GROUP_SIZE - 1) / GROUP_SIZE
    ensures forall i :: 0 <= i < |plan.sel| ==> 0 <= plan.sel[i] < |plan.lens|
  {
    hide Decodable, Half;
    forall x | 0 <= x < |syms| ensures x / GROUP_SIZE < |plan.sel| {
    }
    forall t, x | 0 <= t < |plan.lens| && 0 <= x < |syms| ensures 0 <= syms[x] < |plan.lens[t]| && plan.lens[t][syms[x]] >= 0 {
      assert GoodLengths(plan.lens[t], alphaSize);
      assert Half(w, x) == syms[x];
    }
  }

  lemma WordFits(len: seq<int>, v: int)
    requires Decodable(len, 20) && 0 <= v < |len|
    ensures 1 <= len[v] <= 20 && 0 <= CodeOf(len, v) < Pow2(len[v]) && Word(len, v) == ToBits(CodeOf(len, v), len[v])
  {
    CodeFits(len, 20, v);
  }

  // ---------- the tables and symbols of a block ----------

  /** sendMTFValues: chooses the tables and writes everything from the mapping on. */
  method SendMtfValues(w: BitWriter, ptr: array<int>, nMTF: int, mtfFreq: array<int>, inUse: array<bool>, nInUse: int, ghost syms: seq<int>)
    returns (plan: Plan)
    requires w.Valid() && inUse.Length == 256 && GoodMap(inUse[..]) && nInUse == |Used(inUse[..], 256)|
    requires Holds(ptr[..], syms, nInUse + 2) && 1 <= nMTF == |syms| <= 900001 && nInUse + 2 <= mtfFreq.Length
    modifies w
    ensures GoodBlock(inUse[..], plan, syms)
    ensures w.Valid() && w.drained == old(w.drained)
    ensures w.Contents() == old(w.Contents()) + MapBits(inUse[..]) + SelectorBits(plan) + TableBits(plan.lens) + SymbolBits(plan, syms, 0)
  {
    hide BitWriter.Valid, BitWriter.Contents, Used, Decodable, MapBits, SelectorBits, TableBits, SymbolBits, Holds, GoodSymbols;
    UsedBound(inUse[..]);
    var alphaSize := nInUse + 2;
    plan := Choose(ptr, nMTF, alphaSize, mtfFreq, syms);
    PlanTables(plan, alphaSize);
    var codes := AssignAll(plan.lens, alphaSize);
    SendMap(w, inUse);
    SendSelectors(w, plan);
    SendTables(w, plan.lens);
    SendSymbols(w, ptr, nMTF, plan, codes, alphaSize, syms);
  }

  lemma UsedBound(inUse: seq<bool>)
    requires |inUse| == 256
    ensures |Used(inUse, 256)| <= 256
  {
  }

  lemma PlanTables(plan: Plan, alphaSize: int)
    requires alphaSize >= 3 && forall t :: 0 <= t < |plan.lens| ==> GoodLengths(plan.lens[t], alphaSize) && GoodTable(plan.lens[t])
    ensures forall t :: 0 <= t < |plan.lens| ==> |plan.lens[t]| == alphaSize && plan.lens[t] != []
    ensures forall t, i :: 0 <= t < |plan.lens| && 0 <= i < alphaSize ==> 1 <= plan.lens[t][i] <= 17
  {
  }
}
