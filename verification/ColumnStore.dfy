/** The column of a block while it is read, and the links built from it in place: tt, or ll16 and ll4. */
module ColumnStore {
  import opened Permutations
  import opened Rotations
  import opened Counting
  import opened InverseBwt
  import opened MoveToFront
  import opened SmallMode
  import opened BlockOutput

  const LEVEL := 100000

  class Column {
    const small: bool
    const unzftab: array<int>
    const cftab: array<int>
    const tt: array<int>
    const ll16: array<int>
    const ll4: array<int>
    var level: int  // blockSize100k
    ghost var l: seq<byte>      // what has been read
    ghost var cycle: set<int>   // the rows whose links small mode has turned round

    /** The arrays have room for the largest block. */
    ghost predicate Fits()
      reads this`level
    {
      && 0 <= level <= 9 && unzftab.Length == 256 && cftab.Length == 257 && ll16 != ll4
      && tt.Length == (if small then 0 else LEVEL * 9)
      && ll16.Length == (if small then LEVEL * 9 else 0)
      && ll4.Length == (if small then (1 + LEVEL * 9) / 2 else 0)
    }

    /** Where the column is read into. */
    function Cells(): array<int> {
      if small then ll16 else tt
    }

    /** The cells hold what has been read, and the counts are those of its bytes. */
    ghost predicate Holds()
      reads this`level, this`l, unzftab, Cells()
    {
      && Fits() && |l| <= LEVEL * level
      && (forall i :: 0 <= i < |l| ==> Cells()[i] == l[i])
      && (forall c :: 0 <= c < 256 ==> unzftab[c] == Occ(l, |l|, c))
    }

    /** The links of what has been read are built, for either kind of output. */
    ghost predicate Linked(origPtr: int)
      reads this, tt, ll16, ll4, cftab
    {
      && Fits() && 0 <= origPtr < |l| <= LEVEL * level
      && if small then SmallReady(ll16[..], ll4[..], cftab[..], l, cycle) && origPtr in cycle
         else FastReady(tt[..], l, StableOf(l))
    }

    ghost function Arrays(): set<object> {
      {unzftab, cftab, tt, ll16, ll4}
    }

    constructor (small: bool)
      ensures Fits() && level == 0 && this.small == small && fresh(Arrays())
    {
      this.small := small;
      unzftab, cftab := new int[256], new int[257];
      tt := new int[if small then 0 else LEVEL * 9];
      ll16, ll4 := new int[if small then LEVEL * 9 else 0], new int[if small then (1 + LEVEL * 9) / 2 else 0];
      level, l, cycle := 0, [], {};
    }

    /** Nothing has been read. */
    method Clear()
      requires Fits()
      modifies this`l, unzftab
      ensures Holds() && l == []
    {
      for i := 0 to 256
        invariant forall c :: 0 <= c < i ==> unzftab[c] == 0
      {
        unzftab[i] := 0;
      }
      l := [];
    }

    /** One more byte. */
    method Push(nblock: int, uc: byte)
      requires Holds() && nblock == |l| < LEVEL * level
      modifies this`l, unzftab, Cells()
      ensures Holds() && l == old(l) + [uc]
    {
      Occurrences(l, uc);
      hide Occ;
      unzftab[uc] := unzftab[uc] + 1;
      if small { ll16[nblock] := uc; } else { tt[nblock] := uc; }
      l := l + [uc];
    }

    /** A run of es bytes, which may turn out not to fit. */
    method PushRun(nblock0: int, uc: byte, es0: int) returns (nblock: int, ok: bool)
      requires Holds() && nblock0 == |l| && es0 >= 0
      modifies this`l, unzftab, Cells()
      ensures Fits() && ok == (|old(l)| + es0 <= LEVEL * level)
      ensures ok ==> Holds() && l == old(l) + Copies(uc, es0) && nblock == |l|
    {
      ghost var l0 := l;
      OccurrencesOfRun(l0, uc, es0);
      hide Occ;
      unzftab[uc] := unzftab[uc] + es0;
      var es := es0;
      nblock := nblock0;
      while es > 0
        invariant 0 <= es <= es0 && nblock == |l0| + (es0 - es) <= LEVEL * level
        invariant forall i :: 0 <= i < |l0| ==> Cells()[i] == l0[i]
        invariant forall i :: |l0| <= i < nblock ==> Cells()[i] == uc
        invariant forall c :: 0 <= c < 256 ==> unzftab[c] == Occ(l0 + Copies(uc, es0), |l0| + es0, c)
      {
        if nblock >= LEVEL * level { return nblock, false; }
        if small { ll16[nblock] := uc; } else { tt[nblock] := uc; }
        nblock := nblock + 1;
        es := es - 1;
      }
      l := l0 + Copies(uc, es0);
      ok := true;
    }

    /** Everything has been read: running totals, and the links of the block in place. */
    method Link(nblock: int, origPtr: int) returns (ok: bool)
      requires Holds() && nblock == |l| && 0 <= origPtr < nblock
      modifies this`cycle, cftab, tt, ll16, ll4
      ensures ok && Linked(origPtr)
    {
      ok := CumulativeCounts(unzftab, cftab, nblock, l);
      if small {
        LinkSmall(nblock, origPtr);
      } else {
        assert tt[..nblock] == l;
        ghost var t := BuildLinks(tt, cftab, nblock);
        StableUnique(l, t);
      }
    }

    method LinkSmall(nblock: int, origPtr: int)
      requires small && Fits() && nblock == |l| <= LEVEL * level && 0 <= origPtr < nblock
      requires forall i :: 0 <= i < nblock ==> ll16[i] == l[i]
      requires forall c :: 0 <= c <= 256 ==> cftab[c] == Below(l, nblock, c)
      modifies this`cycle, ll16, ll4
      ensures Linked(origPtr)
    {
      hide Below, Occ, Links, Backwards;
      BuildForward(ll16, ll4, cftab, nblock, l);
      RanksPermute(l);
      assert Links(ll16[..], ll4[..], nblock) == Ranks(l);
      cycle := ReverseCycle(ll16, ll4, origPtr, nblock, Ranks(l));
    }

    /** The bytes of the block, to be read one at a time. */
    method Open(origPtr: int) returns (src: BlockSource)
      requires Linked(origPtr)
      ensures fresh(src) && src.Valid() && src.pos == 0 && |src.block| == |l| && 0 <= origPtr < |l|
      ensures StableOrder(l, StableOf(l)) && IsPerm(StableOf(l), |l|) && src.block == Walk(l, StableOf(l), origPtr, |l|)
    {
      StableExists(l);
      hide BlockSource.Valid, Walk, StableOrder, SmallReady, FastReady;
      if small {
        src := new BlockSource.Small(ll16, ll4, cftab, origPtr, LEVEL * level, l, StableOf(l), cycle);
      } else {
        src := new BlockSource.Fast(tt, origPtr, LEVEL * level, l, StableOf(l));
      }
    }
  }

  lemma RanksPermute(l: seq<byte>)
    ensures IsPerm(Ranks(l), |l|)
  {
    forall i, j | 0 <= i < j < |l| ensures Ranks(l)[i] != Ranks(l)[j] {
      RankInjective(l, i, j);
    }
  }

  lemma {:induction false} OccPush(l: seq<int>, m: nat, c: int, d: int)
    requires m <= |l|
    ensures Occ(l + [d], m, c) == Occ(l, m, c)
    decreases m
  {
    if m > 0 {
      OccPush(l, m - 1, c, d);
    }
  }

  lemma OccOneMore(l: seq<byte>, uc: byte, c: int)
    ensures Occ(l + [uc], |l| + 1, c) == Occ(l, |l|, c) + if uc == c then 1 else 0
  {
    OccPush(l, |l|, c, uc);
  }

  lemma {:induction false} OccCopies(l: seq<byte>, uc: byte, k: nat, c: int)
    ensures Occ(l + Copies(uc, k), |l| + k, c) == Occ(l, |l|, c) + if uc == c then k else 0
    decreases k
  {
    if k == 0 {
      assert l + Copies(uc, 0) == l;
    } else {
      OccCopies(l, uc, k - 1, c);
      assert l + Copies(uc, k) == (l + Copies(uc, k - 1)) + [uc];
      OccOneMore(l + Copies(uc, k - 1), uc, c);
    }
  }

  lemma Occurrences(l: seq<byte>, uc: byte)
    ensures forall c :: 0 <= c < 256 ==> Occ(l + [uc], |l| + 1, c) == Occ(l, |l|, c) + if uc == c then 1 else 0
  {
    forall c | 0 <= c < 256 ensures Occ(l + [uc], |l| + 1, c) == Occ(l, |l|, c) + if uc == c then 1 else 0 {
      OccOneMore(l, uc, c);
    }
  }

  lemma OccurrencesOfRun(l: seq<byte>, uc: byte, k: nat)
    ensures forall c :: 0 <= c < 256 ==> Occ(l + Copies(uc, k), |l| + k, c) == Occ(l, |l|, c) + if uc == c then k else 0
  {
    forall c | 0 <= c < 256 ensures Occ(l + Copies(uc, k), |l| + k, c) == Occ(l, |l|, c) + if uc == c then k else 0 {
      OccCopies(l, uc, k, c);
    }
  }
}
