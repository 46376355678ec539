/** The initial run-length coding: runs of one byte, the block they are written to, and what a block spells. */
module RunLength {
  import opened Rotations
  import opened MainCompare
  import opened MoveToFront

  /** n copies of c in a row. */
  datatype Run = Run(c: byte, n: int)

  predicate GoodRun(r: Run) { 1 <= r.n <= 255 }

  /** One to three copies stand for themselves; four or more are four copies and a count of the rest. */
  function EncodeRun(r: Run): (s: seq<byte>)
    requires GoodRun(r)
    ensures 1 <= |s| <= 5 && s[0] == r.c
  {
    if r.n < 4 then Copies(r.c, r.n) else Copies(r.c, 4) + [r.n - 4]
  }

  ghost predicate GoodRuns(rs: seq<Run>) {
    forall i :: 0 <= i < |rs| ==> GoodRun(rs[i])
  }

  /** Neighbouring runs are of different bytes, unless the first was as long as a run can get. */
  ghost predicate Separated(rs: seq<Run>) {
    forall i {:trigger rs[i]} :: 0 <= i < |rs| - 1 ==> rs[i].c != rs[i + 1].c || rs[i].n == 255
  }

  ghost function EncodeRuns(rs: seq<Run>): seq<byte>
    requires GoodRuns(rs)
  {
    if rs == [] then [] else EncodeRuns(rs[..|rs| - 1]) + EncodeRun(rs[|rs| - 1])
  }

  /** The data runs stand for. */
  ghost function Spell(rs: seq<Run>): seq<byte> {
    if rs == [] then [] else Spell(rs[..|rs| - 1]) + Copies(rs[|rs| - 1].c, rs[|rs| - 1].n)
  }

  // ---------- decoding ----------

  /** How many of the first four bytes are equal to the first. */
  function Lead(b: seq<byte>): (k: nat)
    requires b != []
    ensures 1 <= k <= 4 && k <= |b| && forall i :: 0 <= i < k ==> b[i] == b[0]
    ensures k < 4 && k < |b| ==> b[k] != b[0]
  {
    if |b| == 1 || b[1] != b[0] then 1
    else if |b| == 2 || b[2] != b[0] then 2
    else if |b| == 3 || b[3] != b[0] then 3
    else 4
  }

  /** What a block spells; a block ending where a count should follow is damaged. */
  datatype Expanded = Data(out: seq<byte>) | Damaged

  ghost function Before(s: seq<byte>, e: Expanded): Expanded {
    if e.Data? then Data(s + e.out) else Damaged
  }

  ghost function Expand(b: seq<byte>): Expanded
    decreases |b|
  {
    if b == [] then Data([])
    else if Lead(b) < 4 then Before(Copies(b[0], Lead(b)), Expand(b[Lead(b)..]))
    else if |b| == 4 then Damaged
    else Before(Copies(b[0], (b[4] as int) + 4), Expand(b[5..]))
  }

  lemma {:induction false} EncodeFirst(rs: seq<Run>)
    requires GoodRuns(rs) && rs != []
    ensures EncodeRuns(rs) == EncodeRun(rs[0]) + EncodeRuns(rs[1..])
    ensures Spell(rs) == Copies(rs[0].c, rs[0].n) + Spell(rs[1..])
    decreases |rs|
  {
    hide EncodeRun, Copies;
    if |rs| == 1 {
      assert rs[..0] == [] && rs[1..] == [];
    } else {
      var t, u, r := rs[..|rs| - 1], rs[1..], rs[|rs| - 1];
      EncodeFirst(t);
      EncodeLast(rs);
      EncodeLast(u);
      assert t[1..] == u[..|u| - 1];
      hide EncodeRuns, Spell;
      Regroup(EncodeRun(rs[0]), EncodeRuns(t[1..]), EncodeRun(r));
      Regroup(Copies(rs[0].c, rs[0].n), Spell(t[1..]), Copies(r.c, r.n));
    }
  }

  lemma EncodeLast(rs: seq<Run>)
    requires GoodRuns(rs) && rs != []
    ensures var t, r := rs[..|rs| - 1], rs[|rs| - 1];
      GoodRuns(t) && EncodeRuns(rs) == EncodeRuns(t) + EncodeRun(r) && Spell(rs) == Spell(t) + Copies(r.c, r.n)
  {
  }

  lemma Regroup(a: seq<byte>, b: seq<byte>, c: seq<byte>)
    ensures a + b + c == a + (b + c)
  {
  }

  /** Blocks of separated runs spell the runs. */
  lemma {:induction false} ExpandRuns(rs: seq<Run>)
    requires GoodRuns(rs) && Separated(rs)
    ensures Expand(EncodeRuns(rs)) == Data(Spell(rs))
    decreases |rs|
  {
    if rs != [] {
      var r, rest := rs[0], rs[1..];
      forall i {:trigger rest[i]} | 0 <= i < |rest| - 1 ensures rest[i].c != rest[i + 1].c || rest[i].n == 255 {
        assert rs[i + 1] == rest[i] && rs[i + 1 + 1] == rest[i + 1];
      }
      ExpandRuns(rest);
      EncodeFirst(rs);
      assert rest != [] ==> rs[0].c != rs[0 + 1].c || rs[0].n == 255;
      if rest != [] { EncodeFirst(rest); }
      ExpandRun(r, EncodeRuns(rest));
    }
  }

  lemma ExpandRun(r: Run, tail: seq<byte>)
    requires GoodRun(r) && (tail != [] && r.n < 4 ==> tail[0] != r.c)
    ensures Expand(EncodeRun(r) + tail) == Before(Copies(r.c, r.n), Expand(tail))
  {
    var b := EncodeRun(r) + tail;
    if r.n < 4 {
      assert forall i :: 0 <= i < r.n ==> b[i] == Copies(r.c, r.n)[i];
      assert b[r.n..] == tail;
      assert tail != [] ==> b[r.n] == tail[0];
      assert Lead(b) == r.n;
    } else {
      assert forall i :: 0 <= i < 4 ==> b[i] == Copies(r.c, 4)[i];
      assert Lead(b) == 4 && b[4] == r.n - 4;
      assert b[5..] == tail;
    }
  }

  /** A checksum folded over data one byte at a time. */
  ghost function Fold(f: (int, byte) -> int, seed: int, s: seq<byte>): int {
    if s == [] then seed else f(Fold(f, seed, s[..|s| - 1]), s[|s| - 1])
  }

  lemma FoldNone(f: (int, byte) -> int, seed: int, c: byte)
    ensures Fold(f, seed, Copies(c, 0)) == seed
  {
  }

  lemma FoldOne(f: (int, byte) -> int, seed: int, c: byte, k: nat)
    ensures Fold(f, seed, Copies(c, k + 1)) == f(Fold(f, seed, Copies(c, k)), c)
  {
    assert Copies(c, k + 1)[..k] == Copies(c, k);
  }

  lemma {:induction false} FoldJoin(f: (int, byte) -> int, seed: int, s: seq<byte>, t: seq<byte>)
    ensures Fold(f, seed, s + t) == Fold(f, Fold(f, seed, s), t)
    decreases |t|
  {
    if t == [] {
      assert s + t == s;
    } else {
      assert (s + t)[..|s + t| - 1] == s + t[..|t| - 1];
      FoldJoin(f, seed, s, t[..|t| - 1]);
    }
  }

  // ---------- runs, one at a time ----------

  lemma RunAdded(rs: seq<Run>, r: Run)
    requires GoodRuns(rs) && GoodRun(r)
    ensures GoodRuns(rs + [r]) && EncodeRuns(rs + [r]) == EncodeRuns(rs) + EncodeRun(r)
    ensures Spell(rs + [r]) == Spell(rs) + Copies(r.c, r.n)
  {
    assert (rs + [r])[..|rs|] == rs;
  }

  lemma SeparatedAdd(rs: seq<Run>, p: Run, r: Run)
    requires Separated(rs + [p]) && (p.c != r.c || p.n == 255)
    ensures Separated(rs + [p] + [r])
  {
    var t, u := rs + [p], rs + [p] + [r];
    forall i {:trigger u[i]} | 0 <= i < |u| - 1 ensures u[i].c != u[i + 1].c || u[i].n == 255 {
      if i < |t| - 1 { assert t[i].c != t[i + 1].c || t[i].n == 255; }
    }
  }

  lemma SeparatedLonger(rs: seq<Run>, p: Run, n: int)
    requires Separated(rs + [p])
    ensures Separated(rs + [p.(n := n)])
  {
    var t, u := rs + [p], rs + [p.(n := n)];
    forall i {:trigger u[i]} | 0 <= i < |u| - 1 ensures u[i].c != u[i + 1].c || u[i].n == 255 {
      assert t[i].c != t[i + 1].c || t[i].n == 255;
    }
  }

  // ---------- the encoder ----------

  predicate PendingOk(ch: int, len: int) {
    (ch == 256 && len == 0) || (0 <= ch < 256 && 1 <= len <= 255)
  }

  /** The pending run, if there is one. */
  ghost function PendingOf(ch: int, len: int): (p: seq<Run>)
    requires PendingOk(ch, len)
  {
    if ch < 256 then [Run(ch, len)] else []
  }

  /** A block, the bytes in use in it and the checksum are those of the runs. */
  ghost predicate BlockOf(rs: seq<Run>, blk: seq<int>, inUse: seq<bool>, crc: int, f: (int, byte) -> int, seed: int) {
    && |inUse| == 256 && GoodRuns(rs)
    && blk == EncodeRuns(rs)
    && (forall v :: 0 <= v < 256 ==> (inUse[v] <==> v in blk))
    && crc == Fold(f, seed, Spell(rs))
  }

  /** The bytes in use once a run has been added. */
  ghost function Marked(inUse: seq<bool>, r: Run): seq<bool>
    requires |inUse| == 256 && GoodRun(r)
  {
    if r.n < 4 then inUse[r.c as int := true] else inUse[r.c as int := true][r.n - 4 := true]
  }

  lemma AddRun(rs: seq<Run>, r: Run, blk: seq<int>, inUse: seq<bool>, crc: int, f: (int, byte) -> int, seed: int)
    requires BlockOf(rs, blk, inUse, crc, f, seed) && GoodRun(r)
    ensures BlockOf(rs + [r], blk + EncodeRun(r), Marked(inUse, r), Fold(f, crc, Copies(r.c, r.n)), f, seed)
  {
    hide EncodeRuns, EncodeRun, Spell, Fold, Marked, Copies;
    RunAdded(rs, r);
    MarkedBytes(inUse, blk, r);
    FoldJoin(f, seed, Spell(rs), Copies(r.c, r.n));
  }

  /** The bytes of a run: its own, and the count of a long one. */
  lemma MarkedBytes(inUse: seq<bool>, blk: seq<int>, r: Run)
    requires |inUse| == 256 && GoodRun(r) && forall v :: 0 <= v < 256 ==> (inUse[v] <==> v in blk)
    ensures |Marked(inUse, r)| == 256 && forall v :: 0 <= v < 256 ==> (Marked(inUse, r)[v] <==> v in blk + EncodeRun(r))
  {
    FewCopies(r.c);
    var e: seq<int> := EncodeRun(r);
    assert r.n >= 4 ==> e == [r.c, r.c, r.c, r.c, r.n - 4];
    hide EncodeRun, Copies;
    forall v: int ensures v in blk + e <==> v in blk || v in e {
    }
  }

  class RunEncoder {
    const crcUpdate: (int, byte) -> int
    const crcSeed: int
    const nblockMAX: int
    const block: array<int>
    const inUse: array<bool>
    var nblock: int
    var stateInCh: int
    var stateInLen: int
    var blockCRC: int
    ghost var runs: seq<Run>  // the runs written to the block

    ghost predicate Core()
      reads this, block, inUse
    {
      && inUse.Length == 256 && 0 <= nblock <= nblockMAX + 9 && nblockMAX + 19 + OVERSHOOT <= block.Length && nblockMAX >= 1
      && BlockOf(runs, block[..nblock], inUse[..], blockCRC, crcUpdate, crcSeed)
    }

    ghost predicate Valid()
      reads this, block, inUse
    {
      Core() && PendingOk(stateInCh, stateInLen) && Separated(runs + PendingOf(stateInCh, stateInLen))
    }

    /** All data taken in since the block was started: what the block spells, then the pending run. */
    ghost function Taken(): seq<byte>
      requires PendingOk(stateInCh, stateInLen)
      reads this
    {
      Spell(runs + PendingOf(stateInCh, stateInLen))
    }

    constructor (nblockMAX: int, crcUpdate: (int, byte) -> int, crcSeed: int)
      requires nblockMAX >= 1
      ensures Valid() && Taken() == [] && runs == [] && nblock == 0 && stateInCh == 256
      ensures this.nblockMAX == nblockMAX && this.crcUpdate == crcUpdate && this.crcSeed == crcSeed
      ensures fresh(block) && fresh(inUse)
    {
      this.nblockMAX, this.crcUpdate, this.crcSeed := nblockMAX, crcUpdate, crcSeed;
      block, inUse := new int[nblockMAX + 19 + OVERSHOOT], new bool[256](_ => false);
      nblock, stateInCh, stateInLen, blockCRC, runs := 0, 256, 0, crcSeed, [];
    }

    method ClearInUse()
      requires inUse.Length == 256
      modifies inUse
      ensures forall v :: 0 <= v < 256 ==> !inUse[v]
    {
      for i := 0 to 256
        invariant forall v :: 0 <= v < i ==> !inUse[v]
      {
        inUse[i] := false;
      }
    }

    /** prepare_new_block: an empty block; the pending run stays. */
    method PrepareNewBlock()
      requires Valid()
      modifies this, inUse
      ensures Valid() && nblock == 0 && runs == [] && stateInCh == old(stateInCh) && stateInLen == old(stateInLen)
    {
      NoRuns(PendingOf(stateInCh, stateInLen), crcUpdate, crcSeed);
      nblock := 0;
      blockCRC := crcSeed;
      ClearInUse();
      runs := [];
      EmptyBlock(inUse[..], crcUpdate, crcSeed);
      assert block[..nblock] == [];
    }

    /** BZ_UPDATE_CRC for every byte of the pending run. */
    method UpdateCrc()
      requires PendingOk(stateInCh, stateInLen) && stateInCh < 256
      modifies this`blockCRC
      ensures blockCRC == Fold(crcUpdate, old(blockCRC), Copies(stateInCh, stateInLen))
    {
      ghost var c: byte := stateInCh;
      FoldNone(crcUpdate, blockCRC, c);
      hide Fold, Copies;
      for i := 0 to stateInLen
        invariant blockCRC == Fold(crcUpdate, old(blockCRC), Copies(c, i))
      {
        FoldOne(crcUpdate, old(blockCRC), c, i);
        blockCRC := crcUpdate(blockCRC, stateInCh);
      }
    }

    method PutByte(v: int)
      requires 0 <= nblock < block.Length
      modifies this`nblock, block
      ensures nblock == old(nblock) + 1 && block[..nblock] == old(block[..nblock]) + [v]
    {
      block[nblock] := v;
      nblock := nblock + 1;
    }

    /** The bytes of the pending run, in the four cases of add_pair_to_block. */
    method PutRun()
      requires PendingOk(stateInCh, stateInLen) && stateInCh < 256 && 0 <= nblock && nblock + 5 <= block.Length
      modifies this`nblock, block
      ensures old(nblock) < nblock <= old(nblock) + 5
      ensures block[..nblock] == old(block[..nblock]) + EncodeRun(Run(stateInCh, stateInLen))
    {
      FewCopies(stateInCh);
      hide EncodeRun, Copies;
      if stateInLen == 1 {
        PutByte(stateInCh);
      } else if stateInLen == 2 {
        PutTwo(stateInCh);
      } else if stateInLen == 3 {
        PutThree(stateInCh);
      } else {
        PutFour(stateInCh, stateInLen - 4);
      }
    }

    method PutTwo(ch: int)
      requires 0 <= nblock && nblock + 2 <= block.Length
      modifies this`nblock, block
      ensures nblock == old(nblock) + 2 && block[..nblock] == old(block[..nblock]) + [ch, ch]
    {
      PushedBytes(block[..nblock], ch, 0);
      PutByte(ch);
      PutByte(ch);
    }

    method PutThree(ch: int)
      requires 0 <= nblock && nblock + 3 <= block.Length
      modifies this`nblock, block
      ensures nblock == old(nblock) + 3 && block[..nblock] == old(block[..nblock]) + [ch, ch, ch]
    {
      PushedBytes(block[..nblock], ch, 0);
      PutByte(ch);
      PutByte(ch);
      PutByte(ch);
    }

    method PutFour(ch: int, n: int)
      requires 0 <= nblock && nblock + 5 <= block.Length
      modifies this`nblock, block
      ensures nblock == old(nblock) + 5 && block[..nblock] == old(block[..nblock]) + [ch, ch, ch, ch, n]
    {
      PushedBytes(block[..nblock], ch, n);
      PutByte(ch);
      PutByte(ch);
      PutByte(ch);
      PutByte(ch);
      PutByte(n);
    }

    method MarkRun()
      requires PendingOk(stateInCh, stateInLen) && stateInCh < 256 && inUse.Length == 256
      modifies inUse
      ensures inUse[..] == Marked(old(inUse[..]), Run(stateInCh, stateInLen))
    {
      inUse[stateInCh] := true;
      if stateInLen >= 4 { inUse[stateInLen - 4] := true; }
    }

    /** add_pair_to_block: the pending run goes into the block. */
    method AddPair()
      requires Core() && PendingOk(stateInCh, stateInLen) && stateInCh < 256 && nblock <= nblockMAX + 4
      modifies this`nblock, this`blockCRC, this`runs, block, inUse
      ensures Core() && runs == old(runs) + [Run(stateInCh, stateInLen)] && nblock <= old(nblock) + 5
    {
      hide BlockOf, Fold, Marked, EncodeRun, Copies;
      ghost var r := Run(stateInCh, stateInLen);
      AddRun(runs, r, block[..nblock], inUse[..], blockCRC, crcUpdate, crcSeed);
      UpdateCrc();
      MarkRun();
      PutRun();
      runs := runs + [r];
    }

    /** flush_RL: nothing is pending afterwards. */
    method FlushRL()
      requires Valid() && nblock <= nblockMAX + 4
      modifies this, block, inUse
      ensures Valid() && stateInCh == 256 && Taken() == old(Taken()) && nblock <= old(nblock) + 5
    {
      hide BlockOf, Separated, Spell;
      ghost var rs, p := runs, PendingOf(stateInCh, stateInLen);
      if stateInCh < 256 { AddPair(); }
      stateInCh, stateInLen := 256, 0;
      assert runs == rs + p;
      assert runs + [] == runs;
    }

    /** ADD_CHAR_TO_BLOCK: one more byte is taken in; at most one run goes into the block. */
    method AddChar(c: byte)
      requires Valid() && nblock < nblockMAX && (stateInCh == 256 ==> runs == [])
      modifies this, block, inUse
      ensures Valid() && Taken() == old(Taken()) + [c] && nblock <= old(nblock) + 5 && stateInCh < 256
    {
      hide BlockOf, Separated, Spell;
      ghost var rs, ch, len := runs, stateInCh, stateInLen;
      TakeOne(rs, ch, len, c);
      if c != stateInCh && stateInLen == 1 {
        FastPair();
        stateInCh := c;
      } else if c != stateInCh || stateInLen == 255 {
        if stateInCh < 256 { AddPair(); }
        stateInCh, stateInLen := c, 1;
      } else {
        stateInLen := stateInLen + 1;
      }
    }

    /** The fast track for a run of one. */
    method FastPair()
      requires Core() && 0 <= stateInCh < 256 && stateInLen == 1 && nblock <= nblockMAX + 4
      modifies this`nblock, this`blockCRC, this`runs, block, inUse
      ensures Core() && runs == old(runs) + [Run(stateInCh, 1)] && nblock == old(nblock) + 1
    {
      hide BlockOf, Fold, EncodeRun, Copies;
      ghost var r := Run(stateInCh, 1);
      AddRun(runs, r, block[..nblock], inUse[..], blockCRC, crcUpdate, crcSeed);
      FewCopies(stateInCh);
      UpdateCrc();
      inUse[stateInCh] := true;
      PutByte(stateInCh);
      runs := runs + [r];
    }

    /** Every finished block decodes to exactly the data its runs took in. */
    lemma BlockSpells()
      requires Valid()
      ensures Expand(EncodeRuns(runs)) == Data(Spell(runs))
    {
      SeparatedPrefix(runs, PendingOf(stateInCh, stateInLen));
      ExpandRuns(runs);
    }
  }

  lemma PushedBytes(b: seq<int>, c: int, n: int)
    ensures b + [c] + [c] == b + [c, c] && b + [c] + [c] + [c] == b + [c, c, c]
    ensures b + [c] + [c] + [c] + [c] + [n] == b + [c, c, c, c, n]
  {
  }

  lemma FewCopies(c: byte)
    ensures EncodeRun(Run(c, 1)) == [c] && EncodeRun(Run(c, 2)) == [c, c] && EncodeRun(Run(c, 3)) == [c, c, c]
    ensures Copies(c, 4) == [c, c, c, c]
    ensures forall n :: 4 <= n <= 255 ==> EncodeRun(Run(c, n)) == [c, c, c, c, n - 4]
  {
    assert Copies(c, 1) == [c] && Copies(c, 2) == [c, c] && Copies(c, 3) == [c, c, c] && Copies(c, 4) == [c, c, c, c];
  }

  lemma NoRuns(p: seq<Run>, f: (int, byte) -> int, seed: int)
    requires |p| <= 1
    ensures [] + p == p && Separated([] + p)
  {
  }

  lemma SpellAdded(rs: seq<Run>, r: Run)
    ensures Spell(rs + [r]) == Spell(rs) + Copies(r.c, r.n)
  {
    assert (rs + [r])[..|rs|] == rs;
  }

  lemma EmptyBlock(inUse: seq<bool>, f: (int, byte) -> int, seed: int)
    requires |inUse| == 256 && forall v :: 0 <= v < 256 ==> !inUse[v]
    ensures BlockOf([], [], inUse, seed, f, seed)
  {
  }

  /** The runs after one more byte: the pending run grows, or is written and another one starts. */
  lemma TakeOne(rs: seq<Run>, ch: int, len: int, c: byte)
    requires PendingOk(ch, len) && Separated(rs + PendingOf(ch, len)) && (ch == 256 ==> rs == [])
    ensures ch == 256 ==> Separated(rs + [Run(c, 1)]) && Spell(rs + [Run(c, 1)]) == Spell(rs + PendingOf(ch, len)) + [c]
    ensures ch < 256 && (c != ch || len == 255) ==>
              && Separated(rs + [Run(ch, len)] + [Run(c, 1)])
              && Spell(rs + [Run(ch, len)] + [Run(c, 1)]) == Spell(rs + PendingOf(ch, len)) + [c]
    ensures c == ch && len < 255 ==>
              && Separated(rs + [Run(ch, len + 1)])
              && Spell(rs + [Run(ch, len + 1)]) == Spell(rs + PendingOf(ch, len)) + [c]
  {
    SpellAdded(rs, Run(c, 1));
    assert Copies(c, 1) == [c];
    if ch == 256 {
      assert rs + PendingOf(ch, len) == [];
    } else if c != ch || len == 255 {
      SeparatedAdd(rs, Run(ch, len), Run(c, 1));
      SpellAdded(rs + [Run(ch, len)], Run(c, 1));
    } else {
      SeparatedLonger(rs, Run(ch, len), len + 1);
      SpellAdded(rs, Run(ch, len));
      SpellAdded(rs, Run(ch, len + 1));
    }
  }

  lemma SeparatedPrefix(rs: seq<Run>, p: seq<Run>)
    requires Separated(rs + p)
    ensures Separated(rs)
  {
    forall i {:trigger rs[i]} | 0 <= i < |rs| - 1 ensures rs[i].c != rs[i + 1].c || rs[i].n == 255 {
      assert (rs + p)[i] == rs[i] && (rs + p)[i + 1] == rs[i + 1];
    }
  }
}
