/** The decoder's move-to-front list: sixteen short sublists sliding down a 4096-byte arena. */
module SegmentedList {
  import opened Rotations
  import opened MoveToFront

  const ARENA := 4096
  const PART := 16

  /** Entry j of sublist k. */
  ghost function At(a: seq<byte>, base: seq<int>, k: int, j: int): int {
    if 0 <= k < |base| && 0 <= base[k] + j < |a| then a[base[k] + j] else -1
  }

  /** The sublists lie in the arena in order, without overlap, and with room below the first. */
  ghost predicate Layout(a: seq<byte>, base: seq<int>) {
    && |a| == ARENA && |base| == PART
    && 1 <= base[0] && base[PART - 1] + PART <= ARENA
    && forall k :: 0 <= k < PART - 1 ==> base[k] + PART <= base[k + 1]
  }

  lemma {:induction false} BaseRange(a: seq<byte>, base: seq<int>, k: int)
    requires Layout(a, base) && 0 <= k < PART
    ensures 1 + PART * k <= base[k] <= ARENA - PART * (PART - k)
  {
    BaseAbove(base, k);
    BaseBelow(base, k);
  }

  lemma {:induction false} BaseAbove(base: seq<int>, k: int)
    requires |base| == PART && 0 <= k < PART && forall k :: 0 <= k < PART - 1 ==> base[k] + PART <= base[k + 1]
    ensures base[0] + PART * k <= base[k]
    decreases k
  {
    if k > 0 {
      BaseAbove(base, k - 1);
      assert base[k - 1] + PART <= base[k - 1 + 1];
    }
  }

  lemma {:induction false} BaseBelow(base: seq<int>, k: int)
    requires |base| == PART && 0 <= k < PART && forall k :: 0 <= k < PART - 1 ==> base[k] + PART <= base[k + 1]
    ensures base[k] + PART * (PART - 1 - k) <= base[PART - 1]
    decreases PART - k
  {
    if k < PART - 1 {
      BaseBelow(base, k + 1);
    }
  }

  /** The list a layout stands for. */
  ghost function ListOf(a: seq<byte>, base: seq<int>): (l: seq<byte>)
    requires Layout(a, base)
    ensures |l| == 256
    ensures forall k, j :: 0 <= k < PART && 0 <= j < PART ==> At(a, base, k, j) == l[PART * k + j]
  {
    var l := seq(256, x requires 0 <= x < 256 => BaseRange(a, base, x / PART); a[base[x / PART] + x % PART]);
    forall k, j | 0 <= k < PART && 0 <= j < PART ensures At(a, base, k, j) == l[PART * k + j] {
      BaseRange(a, base, k);
      assert (PART * k + j) / PART == k && (PART * k + j) % PART == j;
    }
    l
  }

  lemma ListIs(a: seq<byte>, base: seq<int>, l: seq<byte>)
    requires Layout(a, base) && |l| == 256
    requires forall k, j :: 0 <= k < PART && 0 <= j < PART ==> At(a, base, k, j) == l[PART * k + j]
    ensures ListOf(a, base) == l
  {
    forall x | 0 <= x < 256 ensures ListOf(a, base)[x] == l[x] {
      assert At(a, base, x / PART, x % PART) == l[PART * (x / PART) + x % PART];
    }
  }

  // ---------- a symbol in the first sublist ----------

  /** The entries of the first sublist between nn and its old place n have moved up by one. */
  ghost predicate Shifting(a0: seq<byte>, a: seq<byte>, pp: int, n: int, nn: int) {
    && 0 <= nn <= n < PART && 0 <= pp && pp + PART <= |a0| == |a|
    && forall x {:trigger a[x]} :: 0 <= x < |a| ==> a[x] == if pp + nn < x <= pp + n then a0[x - 1] else a0[x]
  }

  lemma FirstPart(a0: seq<byte>, a: seq<byte>, base: seq<int>, n: int)
    requires Layout(a0, base) && Shifting(a0, a, base[0], n, 0)
    ensures var a' := a[base[0] := a0[base[0] + n]];
      Layout(a', base) && ListOf(a', base) == Front(ListOf(a0, base), n) && ListOf(a0, base)[n] == a0[base[0] + n]
  {
    var l, pp := ListOf(a0, base), base[0];
    var a' := a[pp := a0[pp + n]];
    assert At(a0, base, 0, n) == l[PART * 0 + n];
    forall k, j | 0 <= k < PART && 0 <= j < PART ensures At(a', base, k, j) == Front(l, n)[PART * k + j] {
      FirstEntry(a0, a, base, l, n, k, j);
    }
    ListIs(a', base, Front(l, n));
  }

  lemma FirstEntry(a0: seq<byte>, a: seq<byte>, base: seq<int>, l: seq<byte>, n: int, k: int, j: int)
    requires Layout(a0, base) && Shifting(a0, a, base[0], n, 0) && l == ListOf(a0, base)
    requires 0 <= k < PART && 0 <= j < PART
    ensures At(a[base[0] := a0[base[0] + n]], base, k, j) == Front(l, n)[PART * k + j]
  {
    BaseRange(a0, base, k);
    BaseAbove(base, k);
    assert At(a0, base, k, j) == l[PART * k + j];
    if k == 0 && j == 0 {
      assert At(a0, base, 0, n) == l[PART * 0 + n];
    } else if k == 0 && j <= n {
      assert At(a0, base, 0, j - 1) == l[PART * 0 + (j - 1)];
    } else {
      assert base[0] + n < base[k] + j;
      assert a[base[k] + j] == a0[base[k] + j];
    }
  }

  // ---------- a symbol further back ----------

  /**
   * The list l is turning into t from the back.  Sublists above m hold their part of t, those below m their part
   * of l; sublist m has lost its last entry and lacks the first of its part of t.
   */
  ghost predicate Turning(l: seq<byte>, t: seq<byte>, a: seq<byte>, base: seq<int>, m: int) {
    && |l| == |t| == 256 && |a| == ARENA && |base| == PART && 0 <= m < PART
    && 1 <= base[0]
    && (forall k :: 0 <= k < m ==> base[k] + PART <= base[k + 1])
    && base[m] + PART - 1 <= (if m == PART - 1 then ARENA else base[m + 1])
    && (forall k :: m < k < PART - 1 ==> base[k] + PART <= base[k + 1])
    && (m < PART - 1 ==> base[PART - 1] + PART <= ARENA)
    && (forall k, j :: 0 <= k < m && 0 <= j < PART ==> At(a, base, k, j) == l[PART * k + j])
    && (forall j :: 0 <= j < PART - 1 ==> At(a, base, m, j) == t[PART * m + j + 1])
    && (forall k, j :: m < k < PART && 0 <= j < PART ==> At(a, base, k, j) == t[PART * k + j])
  }

  lemma {:induction false} TurningRange(l: seq<byte>, t: seq<byte>, a: seq<byte>, base: seq<int>, m: int, k: int)
    requires Turning(l, t, a, base, m) && 0 <= k <= m
    ensures 1 <= base[k] && base[k] + PART * (m - k) <= base[m] <= ARENA - PART + 1
    decreases m - k
  {
    if k < m {
      TurningRange(l, t, a, base, m, k + 1);
      TurningLow(base, m, k);
    } else {
      TurningLow(base, m, m);
      TurningHigh(base, m);
    }
  }

  lemma {:induction false} TurningLow(base: seq<int>, m: int, k: int)
    requires |base| == PART && 0 <= k <= m < PART && 1 <= base[0] && forall k :: 0 <= k < m ==> base[k] + PART <= base[k + 1]
    ensures 1 <= base[k]
    decreases k
  {
    if k > 0 {
      TurningLow(base, m, k - 1);
      assert base[k - 1] + PART <= base[k - 1 + 1];
    }
  }

  lemma {:induction false} TurningHigh(base: seq<int>, m: int)
    requires |base| == PART && 0 <= m < PART
    requires base[m] + PART - 1 <= (if m == PART - 1 then ARENA else base[m + 1])
    requires forall k :: m < k < PART - 1 ==> base[k] + PART <= base[k + 1]
    requires m < PART - 1 ==> base[PART - 1] + PART <= ARENA
    ensures base[m] <= ARENA - PART + 1
    decreases PART - m
  {
    if m < PART - 1 {
      TurningHigh(base, m + 1);
    }
  }

  /** One sublist handed over: its first entry is the last of the sublist below. */
  lemma TurnPart(l: seq<byte>, nn: int, a: seq<byte>, base: seq<int>, m: int)
    requires 0 <= nn < 256 && |l| == 256 && Turning(l, Front(l, nn), a, base, m) && 0 < m <= nn / PART
    ensures 0 <= base[m - 1] + PART - 1 < ARENA && 0 <= base[m] - 1 < ARENA
    ensures Turning(l, Front(l, nn), a[base[m] - 1 := a[base[m - 1] + PART - 1]], base[m := base[m] - 1], m - 1)
  {
    var t := Front(l, nn);
    TurningRange(l, t, a, base, m, m);
    TurningRange(l, t, a, base, m, m - 1);
    var a', base' := a[base[m] - 1 := a[base[m - 1] + PART - 1]], base[m := base[m] - 1];
    assert At(a, base, m - 1, PART - 1) == l[PART * (m - 1) + (PART - 1)];
    forall k, j | 0 <= k < m && 0 <= j < PART ensures At(a', base', k, j) == l[PART * k + j] {
      TurningRange(l, t, a, base, m, k);
      assert At(a, base, k, j) == l[PART * k + j];
    }
    var below := m - 1;
    forall j | 0 <= j < PART - 1 ensures At(a', base', below, j) == t[PART * below + j + 1] {
      assert At(a', base', below, j) == l[PART * below + j];
    }
    forall k, j | m - 1 < k < PART && 0 <= j < PART ensures At(a', base', k, j) == t[PART * k + j] {
      TurnAbove(l, nn, a, base, m, k, j);
    }
  }

  lemma TurnAbove(l: seq<byte>, nn: int, a: seq<byte>, base: seq<int>, m: int, k: int, j: int)
    requires 0 <= nn < 256 && |l| == 256 && Turning(l, Front(l, nn), a, base, m) && 0 < m <= nn / PART
    requires m <= k < PART && 0 <= j < PART && 0 <= base[m - 1] + PART - 1 < ARENA && 0 <= base[m] - 1 < ARENA
    ensures At(a[base[m] - 1 := a[base[m - 1] + PART - 1]], base[m := base[m] - 1], k, j) == Front(l, nn)[PART * k + j]
  {
    var t := Front(l, nn);
    if k > m {
      assert At(a, base, k, j) == t[PART * k + j];
      TurningAbove(base, m, k);
    } else if j > 0 {
      assert At(a, base, m, j - 1) == t[PART * m + (j - 1) + 1];
    } else {
      assert At(a, base, m - 1, PART - 1) == l[PART * (m - 1) + (PART - 1)];
    }
  }

  lemma {:induction false} TurningAbove(base: seq<int>, m: int, k: int)
    requires |base| == PART && 0 <= m < k < PART
    requires base[m] + PART - 1 <= base[m + 1]
    requires forall k :: m < k < PART - 1 ==> base[k] + PART <= base[k + 1]
    ensures base[m] + PART - 1 <= base[k]
    decreases k
  {
    if k > m + 1 {
      TurningAbove(base, m, k - 1);
      assert base[k - 1] + PART <= base[k - 1 + 1];
    }
  }

  lemma TurnStart(a0: seq<byte>, a: seq<byte>, base: seq<int>, nn: int)
    requires Layout(a0, base) && PART <= nn < 256
    requires Shifting(a0, a, base[nn / PART], nn % PART, 0)
    ensures Turning(ListOf(a0, base), Front(ListOf(a0, base), nn), a, base[nn / PART := base[nn / PART] + 1], nn / PART)
  {
    hide ListOf, At, Front;
    var l, m := ListOf(a0, base), nn / PART;
    var t, base' := Front(l, nn), base[m := base[m] + 1];
    forall k, j | 0 <= k < PART && k != m && 0 <= j < PART
      ensures At(a, base', k, j) == l[PART * k + j] && (k > m ==> l[PART * k + j] == t[PART * k + j])
    {
      TurnStartOther(a0, a, base, l, nn, k, j);
    }
    forall j | 0 <= j < PART - 1 ensures At(a, base', m, j) == t[PART * m + j + 1] {
      TurnStartSame(a0, a, base, l, nn, j);
    }
    Bases(a0, base, m);
  }

  lemma Bases(a: seq<byte>, base: seq<int>, m: int)
    requires Layout(a, base) && 0 <= m < PART
    ensures base[m] + PART <= (if m == PART - 1 then ARENA else base[m + 1])
  {
  }

  lemma TurnStartOther(a0: seq<byte>, a: seq<byte>, base: seq<int>, l: seq<byte>, nn: int, k: int, j: int)
    requires Layout(a0, base) && PART <= nn < 256 && l == ListOf(a0, base)
    requires Shifting(a0, a, base[nn / PART], nn % PART, 0)
    requires 0 <= k < PART && k != nn / PART && 0 <= j < PART
    ensures At(a, base[nn / PART := base[nn / PART] + 1], k, j) == l[PART * k + j]
    ensures k > nn / PART ==> l[PART * k + j] == Front(l, nn)[PART * k + j]
  {
    var m := nn / PART;
    if k < m { Apart(a0, base, k, m); } else { Apart(a0, base, m, k); }
    BaseRange(a0, base, k);
    assert At(a0, base, k, j) == l[PART * k + j];
    assert a[base[k] + j] == a0[base[k] + j];
  }

  lemma TurnStartSame(a0: seq<byte>, a: seq<byte>, base: seq<int>, l: seq<byte>, nn: int, j: int)
    requires Layout(a0, base) && PART <= nn < 256 && l == ListOf(a0, base)
    requires Shifting(a0, a, base[nn / PART], nn % PART, 0)
    requires 0 <= j < PART - 1
    ensures At(a, base[nn / PART := base[nn / PART] + 1], nn / PART, j) == Front(l, nn)[PART * (nn / PART) + j + 1]
  {
    var m := nn / PART;
    BaseRange(a0, base, m);
    assert At(a0, base, m, j) == l[PART * m + j];
    assert At(a0, base, m, j + 1) == l[PART * m + (j + 1)];
    assert a[base[m] + j + 1] == if j < nn % PART then a0[base[m] + j] else a0[base[m] + j + 1];
  }

  lemma Apart(a: seq<byte>, base: seq<int>, k: int, m: int)
    requires Layout(a, base) && 0 <= k < m < PART
    ensures 1 <= base[k] && base[k] + PART <= base[m] <= ARENA - PART
    decreases m - k
  {
    BaseRange(a, base, k);
    BaseRange(a, base, m);
    if k < m - 1 {
      Apart(a, base, k, m - 1);
      assert base[m - 1] + PART <= base[m - 1 + 1];
    }
  }

  lemma TurnEnd(l: seq<byte>, nn: int, a: seq<byte>, base: seq<int>)
    requires 0 <= nn < 256 && |l| == 256 && Turning(l, Front(l, nn), a, base, 0)
    ensures 0 <= base[0] - 1 < ARENA
    ensures Filled(Front(l, nn), a[base[0] - 1 := l[nn]], base[0 := base[0] - 1])
  {
    var t := Front(l, nn);
    TurningRange(l, t, a, base, 0, 0);
    var a', base' := a[base[0] - 1 := l[nn]], base[0 := base[0] - 1];
    forall k, j | 0 <= k < PART && 0 <= j < PART ensures At(a', base', k, j) == t[PART * k + j] {
      if k > 0 {
        assert At(a, base, k, j) == t[PART * k + j];
        TurningAbove(base, 0, k);
      } else if j > 0 {
        assert At(a, base, 0, j - 1) == t[PART * 0 + (j - 1) + 1];
      }
    }
  }

  /** A layout of list t that may have no room left below it. */
  ghost predicate Filled(t: seq<byte>, a: seq<byte>, base: seq<int>) {
    && |t| == 256 && |a| == ARENA && |base| == PART
    && 0 <= base[0] && base[PART - 1] + PART <= ARENA
    && (forall k :: 0 <= k < PART - 1 ==> base[k] + PART <= base[k + 1])
    && forall k, j :: 0 <= k < PART && 0 <= j < PART ==> At(a, base, k, j) == t[PART * k + j]
  }

  lemma FilledList(t: seq<byte>, a: seq<byte>, base: seq<int>)
    requires Filled(t, a, base) && base[0] > 0
    ensures Layout(a, base) && ListOf(a, base) == t
  {
    ListIs(a, base, t);
  }

  // ---------- the rebuild ----------

  /** The entries from place x of the list on have been copied to the top of the arena, the others not yet. */
  ghost predicate Rebuilding(t: seq<byte>, a: seq<byte>, base: seq<int>, base0: seq<int>, x: int) {
    && |t| == 256 && |a| == ARENA && |base| == |base0| == PART && 0 <= x <= 256
    && 0 <= base0[0] && base0[PART - 1] + PART <= ARENA
    && (forall k :: 0 <= k < PART - 1 ==> base0[k] + PART <= base0[k + 1])
    && (forall k, j :: 0 <= k < PART && 0 <= j < PART && PART * k + j < x ==> At(a, base0, k, j) == t[PART * k + j])
    && (forall y :: x <= y < 256 ==> a[ARENA - 256 + y] == t[y])
    && (forall k :: 0 <= k < PART && x <= PART * k ==> base[k] == ARENA - 256 + PART * k)
    && (forall k :: 0 <= k < PART && PART * k < x ==> base[k] == base0[k])
  }

  lemma RebuildOne(t: seq<byte>, a: seq<byte>, base: seq<int>, base0: seq<int>, k: int, j: int)
    requires Rebuilding(t, a, base, base0, PART * k + j + 1) && 0 <= k < PART && 0 <= j < PART
    ensures 0 <= base[k] + j < ARENA && base[k] == base0[k]
    ensures var a' := a[ARENA - 256 + PART * k + j := a[base[k] + j]];
      && (j > 0 ==> Rebuilding(t, a', base, base0, PART * k + j))
      && (j == 0 ==> Rebuilding(t, a', base[k := ARENA - 256 + PART * k], base0, PART * k))
  {
    BaseAbove(base0, k);
    BaseBelow(base0, k);
    var a' := a[ARENA - 256 + PART * k + j := a[base[k] + j]];
    assert At(a, base0, k, j) == t[PART * k + j];
    forall k', j' | 0 <= k' < PART && 0 <= j' < PART && PART * k' + j' < PART * k + j
      ensures At(a', base0, k', j') == t[PART * k' + j']
    {
      BaseBelow(base0, k');
      assert At(a, base0, k', j') == t[PART * k' + j'];
    }
  }

  lemma RebuildStart(t: seq<byte>, a: seq<byte>, base: seq<int>)
    requires Filled(t, a, base)
    ensures Rebuilding(t, a, base, base, 256)
  {
  }

  lemma RebuildEnd(t: seq<byte>, a: seq<byte>, base: seq<int>, base0: seq<int>)
    requires Rebuilding(t, a, base, base0, 0)
    ensures Layout(a, base) && ListOf(a, base) == t
  {
    forall k, j | 0 <= k < PART && 0 <= j < PART ensures At(a, base, k, j) == t[PART * k + j] {
      assert a[ARENA - 256 + (PART * k + j)] == t[PART * k + j];
    }
    ListIs(a, base, t);
  }

  // ---------- the class ----------

  class MtfArena {
    const mtfa: array<byte>
    const mtfbase: array<int>

    ghost predicate Valid()
      reads this, mtfa, mtfbase
    {
      Layout(mtfa[..], mtfbase[..])
    }

    ghost function List(): (l: seq<byte>)
      requires Valid()
      reads this, mtfa, mtfbase
      ensures |l| == 256
    {
      ListOf(mtfa[..], mtfbase[..])
    }

    constructor ()
      ensures Valid() && fresh(mtfa) && fresh(mtfbase) && mtfa.Length == ARENA && mtfbase.Length == PART
      ensures forall x :: 0 <= x < 256 ==> List()[x] == x
    {
      mtfa, mtfbase := new byte[ARENA], new int[PART];
      new;
      Init();
    }

    /** The list starts as all bytes in order, at the top of the arena. */
    method Init()
      requires mtfa.Length == ARENA && mtfbase.Length == PART
      modifies mtfa, mtfbase
      ensures Valid() && forall x :: 0 <= x < 256 ==> List()[x] == x
    {
      ghost var t: seq<byte> := seq(256, x requires 0 <= x < 256 => x);
      var kk := ARENA - 1;
      var ii := PART - 1;
      while ii >= 0
        invariant -1 <= ii < PART && kk == ARENA - 256 + PART * (ii + 1) - 1
        invariant forall x :: kk < x < ARENA ==> mtfa[x] == x - (ARENA - 256)
        invariant forall k :: ii < k < PART ==> mtfbase[k] == ARENA - 256 + PART * k
      {
        var jj := PART - 1;
        while jj >= 0
          invariant -1 <= jj < PART && kk == ARENA - 256 + PART * ii + jj
          invariant forall x :: kk < x < ARENA ==> mtfa[x] == x - (ARENA - 256)
          invariant forall k :: ii < k < PART ==> mtfbase[k] == ARENA - 256 + PART * k
        {
          mtfa[kk] := ii * PART + jj;
          kk := kk - 1;
          jj := jj - 1;
        }
        mtfbase[ii] := kk + 1;
        ii := ii - 1;
      }
      assert Rebuilding(t, mtfa[..], mtfbase[..], mtfbase[..], 0);
      RebuildEnd(t, mtfa[..], mtfbase[..], mtfbase[..]);
    }

    /** The entry at the front. */
    method Head() returns (uc: byte)
      requires Valid()
      ensures uc == List()[0]
    {
      BaseRange(mtfa[..], mtfbase[..], 0);
      ghost var l := List();
      assert At(mtfa[..], mtfbase[..], 0, 0) == l[PART * 0 + 0];
      return mtfa[mtfbase[0]];
    }

    /** Moves the entries of a sublist before place off up by one; the gap at its start still shows the old entry. */
    method Shift(pp: int, off: int)
      requires 0 <= pp && 0 <= off < PART && pp + PART <= mtfa.Length
      modifies mtfa
      ensures Shifting(old(mtfa[..]), mtfa[..], pp, off, 0)
    {
      var nn := off;
      while nn > 0
        invariant Shifting(old(mtfa[..]), mtfa[..], pp, off, nn)
      {
        mtfa[pp + nn] := mtfa[pp + nn - 1];
        nn := nn - 1;
      }
    }

    /** Returns the entry at place nn and moves it to the front of the list. */
    method MoveToFront(nn: int) returns (uc: byte)
      requires Valid() && 0 <= nn < 256
      modifies mtfa, mtfbase
      ensures Valid() && uc == old(List())[nn] && List() == Front(old(List()), nn)
    {
      hide Layout, ListOf, Turning, Filled, Rebuilding, Shifting, Front;
      ghost var a, base, l := mtfa[..], mtfbase[..], List();
      if nn < PART {
        LayoutFacts(a, base, 0);
        var pp := mtfbase[0];
        uc := mtfa[pp + nn];
        Shift(pp, nn);
        ghost var a1 := mtfa[..];
        FirstPart(a, a1, base, nn);
        mtfa[pp] := uc;
        assert mtfa[..] == a1[pp := uc];
      } else {
        uc := MoveFromBack(nn);
      }
    }

    method MoveFromBack(nn: int) returns (uc: byte)
      requires Valid() && PART <= nn < 256
      modifies mtfa, mtfbase
      ensures Valid() && uc == old(List())[nn] && List() == Front(old(List()), nn)
    {
      hide Layout, ListOf, Turning, Filled, Rebuilding, Shifting, Front;
      ghost var a, base, l := mtfa[..], mtfbase[..], List();
      ghost var t := Front(l, nn);
      var lno := nn / PART;
      LayoutFacts(a, base, lno);
      EntryFact(a, base, nn);
      var off := nn % PART;
      uc := mtfa[mtfbase[lno] + off];
      Shift(mtfbase[lno], off);
      TurnStart(a, mtfa[..], base, nn);
      mtfbase[lno] := mtfbase[lno] + 1;
      assert mtfbase[..] == base[lno := base[lno] + 1];
      while lno > 0
        invariant 0 <= lno <= nn / PART && Turning(l, t, mtfa[..], mtfbase[..], lno)
        invariant mtfa.Length == ARENA && mtfbase.Length == PART
      {
        ghost var a1, base1 := mtfa[..], mtfbase[..];
        TurnPart(l, nn, a1, base1, lno);
        mtfbase[lno] := mtfbase[lno] - 1;
        mtfa[mtfbase[lno]] := mtfa[mtfbase[lno - 1] + PART - 1];
        assert mtfbase[..] == base1[lno := base1[lno] - 1];
        assert mtfa[..] == a1[base1[lno] - 1 := a1[base1[lno - 1] + PART - 1]];
        lno := lno - 1;
      }
      ghost var a1, base1 := mtfa[..], mtfbase[..];
      TurnEnd(l, nn, a1, base1);
      mtfbase[0] := mtfbase[0] - 1;
      mtfa[mtfbase[0]] := uc;
      assert mtfbase[..] == base1[0 := base1[0] - 1] && mtfa[..] == a1[base1[0] - 1 := l[nn]];
      if mtfbase[0] == 0 {
        Rebuild(t);
      } else {
        FilledFacts(t, mtfa[..], mtfbase[..]);
        FilledList(t, mtfa[..], mtfbase[..]);
      }
    }

    /** Copies the sublists, last entry first, back to the top of the arena. */
    method Rebuild(ghost t: seq<byte>)
      requires Filled(t, mtfa[..], mtfbase[..]) && mtfa.Length == ARENA && mtfbase.Length == PART
      modifies mtfa, mtfbase
      ensures Valid() && List() == t
    {
      hide Layout, ListOf, Turning, Filled, Rebuilding, Shifting, Front;
      ghost var base0 := mtfbase[..];
      RebuildStart(t, mtfa[..], base0);
      var kk := ARENA - 1;
      var ii := PART - 1;
      while ii >= 0
        invariant -1 <= ii < PART && kk == ARENA - 256 + PART * (ii + 1) - 1
        invariant Rebuilding(t, mtfa[..], mtfbase[..], base0, PART * (ii + 1))
        invariant mtfa.Length == ARENA && mtfbase.Length == PART
      {
        var jj := PART - 1;
        while jj >= 0
          invariant -1 <= jj < PART && kk == ARENA - 256 + PART * ii + jj
          invariant jj >= 0 ==> Rebuilding(t, mtfa[..], mtfbase[..], base0, PART * ii + jj + 1)
          invariant jj < 0 ==> Rebuilding(t, mtfa[..], mtfbase[..][ii := ARENA - 256 + PART * ii], base0, PART * ii)
          invariant mtfa.Length == ARENA && mtfbase.Length == PART
        {
          ghost var a, base := mtfa[..], mtfbase[..];
          RebuildOne(t, a, base, base0, ii, jj);
          mtfa[kk] := mtfa[mtfbase[ii] + jj];
          assert mtfa[..] == a[ARENA - 256 + PART * ii + jj := a[base[ii] + jj]];
          kk := kk - 1;
          jj := jj - 1;
        }
        ghost var base := mtfbase[..];
        mtfbase[ii] := kk + 1;
        assert mtfbase[..] == base[ii := ARENA - 256 + PART * ii];
        ii := ii - 1;
      }
      RebuildEnd(t, mtfa[..], mtfbase[..], base0);
    }
  }

  lemma LayoutFacts(a: seq<byte>, base: seq<int>, k: int)
    requires Layout(a, base) && 0 <= k < PART
    ensures |a| == ARENA && |base| == PART && 1 <= base[k] && base[k] + PART <= ARENA
  {
    BaseRange(a, base, k);
  }

  lemma EntryFact(a: seq<byte>, base: seq<int>, nn: int)
    requires Layout(a, base) && 0 <= nn < 256
    ensures |a| == ARENA && |base| == PART && 0 <= base[nn / PART] + nn % PART < ARENA
    ensures a[base[nn / PART] + nn % PART] == ListOf(a, base)[nn]
  {
    BaseRange(a, base, nn / PART);
    assert At(a, base, nn / PART, nn % PART) == ListOf(a, base)[PART * (nn / PART) + nn % PART];
  }

  lemma FilledFacts(t: seq<byte>, a: seq<byte>, base: seq<int>)
    requires Filled(t, a, base)
    ensures |base| == PART && 0 <= base[0]
  {
  }
}
