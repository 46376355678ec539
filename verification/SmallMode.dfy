/** Decompression in small memory: links of twenty bits packed into 16 + 4, built forwards and reversed along one cycle. */
module SmallMode {
  import opened Permutations
  import opened Counting
  import opened Rotations
  import opened InverseBwt

  // ---------- packing ----------

  function Nibble(ll4: seq<int>, i: int): int
    requires 0 <= i && i / 2 < |ll4|
  {
    if i % 2 == 0 then ll4[i / 2] % 16 else ll4[i / 2] / 16 % 16
  }

  /** GET_LL. */
  function Link(ll16: seq<int>, ll4: seq<int>, i: int): int
    requires 0 <= i < |ll16| && i / 2 < |ll4|
  {
    ll16[i] + 65536 * Nibble(ll4, i)
  }

  /** A byte with the nibble of i replaced. */
  function WithNibble(x: int, i: int, n: int): int {
    if i % 2 == 0 then x / 16 * 16 + n else x % 16 + 16 * n
  }

  lemma NibbleWritten(ll4: seq<int>, i: int, n: int)
    requires 0 <= i && i / 2 < |ll4| && 0 <= n < 16
    ensures Nibble(ll4[i / 2 := WithNibble(ll4[i / 2], i, n)], i) == n
    ensures forall j :: 0 <= j && j / 2 < |ll4| && j != i ==> Nibble(ll4[i / 2 := WithNibble(ll4[i / 2], i, n)], j) == Nibble(ll4, j)
  {
    var x := ll4[i / 2];
    assert (x / 16 * 16 + n) / 16 == x / 16;
    assert (x % 16 + 16 * n) / 16 == n && (x % 16 + 16 * n) % 16 == x % 16;
  }

  ghost predicate Packed(ll16: seq<int>, ll4: seq<int>, n: int) {
    0 <= n <= |ll16| && (n + 1) / 2 <= |ll4|
  }

  /** All links of the first n rows. */
  ghost function Links(ll16: seq<int>, ll4: seq<int>, n: int): (r: seq<int>)
    requires Packed(ll16, ll4, n)
    ensures |r| == n
  {
    seq(n, i requires 0 <= i < n => Link(ll16, ll4, i))
  }

  /** SET_LL replaces one link; it needs twenty bits. */
  method SetLink(ll16: array<int>, ll4: array<int>, i: int, v: int, ghost n: int)
    requires ll16 != ll4 && Packed(ll16[..], ll4[..], n) && 0 <= i < n && 0 <= v < 0x10_0000
    modifies ll16, ll4
    ensures Packed(ll16[..], ll4[..], n) && Links(ll16[..], ll4[..], n) == old(Links(ll16[..], ll4[..], n))[i := v]
    ensures forall x :: 0 <= x < ll16.Length && x != i ==> ll16[x] == old(ll16[x])
  {
    ghost var a, b := ll16[..], ll4[..];
    NibbleWritten(b, i, v / 65536);
    hide Nibble, WithNibble;
    ll16[i] := v % 65536;
    ll4[i / 2] := WithNibble(ll4[i / 2], i, v / 65536);
    assert ll4[..] == b[i / 2 := WithNibble(b[i / 2], i, v / 65536)];
    assert Links(ll16[..], ll4[..], n) == Links(a, b, n)[i := v];
  }

  // ---------- the forward links ----------

  /** Row by row, the place of its last-column byte in the stable order; still only bytes from row i on. */
  ghost predicate Forward(l: seq<byte>, links: seq<int>, low: seq<int>, i: int) {
    && |links| == |l| <= |low| && 0 <= i <= |l|
    && (forall x :: 0 <= x < i ==> links[x] == Rank(l, x))
    && (forall x :: i <= x < |l| ==> low[x] == l[x])
  }

  method BuildForward(ll16: array<int>, ll4: array<int>, cftab: array<int>, nblock: int, ghost l: seq<byte>)
    requires ll16 != ll4 && cftab != ll16 && cftab != ll4 && cftab.Length == 257 && nblock == |l| <= 900000
    requires Packed(ll16[..], ll4[..], nblock) && forall x :: 0 <= x < nblock ==> ll16[x] == l[x]
    requires forall c :: 0 <= c <= 256 ==> cftab[c] == Below(l, nblock, c)
    modifies ll16, ll4
    ensures Packed(ll16[..], ll4[..], nblock)
    ensures forall x :: 0 <= x < nblock ==> Links(ll16[..], ll4[..], nblock)[x] == Rank(l, x)
  {
    var cftabCopy := new int[257];
    for i := 0 to 257
      invariant forall c :: 0 <= c < i ==> cftabCopy[c] == Below(l, nblock, c)
      invariant Packed(ll16[..], ll4[..], nblock) && forall x :: 0 <= x < nblock ==> ll16[x] == l[x]
      invariant forall c :: 0 <= c <= 256 ==> cftab[c] == Below(l, nblock, c)
    {
      cftabCopy[i] := cftab[i];
    }
    assert Cursors(l, 0, cftabCopy[..]);
    hide Cursors, Links;
    for i := 0 to nblock
      invariant Packed(ll16[..], ll4[..], nblock) && Cursors(l, i, cftabCopy[..]) && cftabCopy.Length == 257
      invariant Forward(l, Links(ll16[..], ll4[..], nblock), ll16[..], i)
    {
      var uc := ll16[i] % 256;
      ghost var cf := cftabCopy[..];
      CursorIs(l, i, cf);
      SetLink(ll16, ll4, i, cftabCopy[uc], nblock);
      CursorsStep(l, i, cf);
      cftabCopy[uc] := cftabCopy[uc] + 1;
      assert cftabCopy[..] == cf[uc := cf[uc] + 1];
    }
  }

  lemma CursorIs(l: seq<byte>, i: nat, cf: seq<int>)
    requires i < |l| && Cursors(l, i, cf)
    ensures |cf| == 257 && cf[l[i]] == Rank(l, i)
  {
  }

  // ---------- reversal ----------

  /** The rows met from orig on, following T, in order and without repetition. */
  ghost predicate Path(tv: seq<int>, orig: int, path: seq<int>) {
    && path != [] && path[0] == orig && Injective(path)
    && (forall k :: 0 <= k < |path| ==> 0 <= path[k] < |tv|)
    && forall k {:trigger path[k]} :: 0 <= k < |path| - 1 ==> tv[path[k]] == path[k + 1]
  }

  /** The links of the path's rows but the first have been turned round. */
  ghost predicate Turned(tv: seq<int>, links: seq<int>, path: seq<int>) {
    && |links| == |tv| && path != []
    && (forall k {:trigger path[k]} :: 0 <= k < |path| - 1 ==> 0 <= path[k + 1] < |links| && links[path[k + 1]] == path[k])
    && (forall x :: 0 <= x < |tv| && x !in path[1..] ==> links[x] == tv[x])
  }

  lemma PathLength(tv: seq<int>, orig: int, path: seq<int>)
    requires Path(tv, orig, path)
    ensures |path| <= |tv|
  {
    Pigeonhole(path, |tv|);
  }

  /** Unless the path closes, its next row is new. */
  lemma PathGrows(tv: seq<int>, orig: int, path: seq<int>, links: seq<int>, j: int)
    requires IsPerm(tv, |tv|) && Path(tv, orig, path) && Turned(tv, links, path) && j == tv[path[|path| - 1]]
    ensures 0 <= j < |tv| && links[j] == tv[j]
    ensures j != orig ==> Path(tv, orig, path + [j]) && Turned(tv, links[j := path[|path| - 1]], path + [j])
  {
    var last := path[|path| - 1];
    forall k | 1 <= k < |path| ensures path[k] != j {
      NotNext(tv, path, k);
    }
    assert j !in path[1..];
    if j != orig {
      var q, r := path + [j], links[j := last];
      assert q[1..] == path[1..] + [j];
      PathStep(tv, orig, path, j);
      hide Path, IsPerm, Injective;
      forall k {:trigger q[k]} | 0 <= k < |q| - 1 ensures 0 <= q[k + 1] < |r| && r[q[k + 1]] == q[k] {
        if k + 1 < |path| { assert links[path[k + 1]] == path[k]; }
      }
      assert Turned(tv, r, q);
    }
  }

  lemma PathStep(tv: seq<int>, orig: int, path: seq<int>, j: int)
    requires Path(tv, orig, path) && j == tv[path[|path| - 1]] && 0 <= j < |tv| && j != orig && j !in path[1..]
    ensures Path(tv, orig, path + [j])
  {
    forall k | 0 <= k < |path| ensures path[k] != j {
      if k > 0 { assert path[k] == path[1..][k - 1]; }
    }
  }

  lemma NotNext(tv: seq<int>, path: seq<int>, k: int)
    requires IsPerm(tv, |tv|) && path != [] && Path(tv, path[0], path) && 1 <= k < |path|
    ensures path[k] != tv[path[|path| - 1]]
  {
    assert tv[path[k - 1]] == path[k - 1 + 1];
    assert path[k - 1] != path[|path| - 1];
  }

  /** The rows of the cycle through orig now lead backwards round it. */
  ghost predicate Backwards(tv: seq<int>, links: seq<int>, cycle: set<int>) {
    && |links| == |tv|
    && forall x :: x in cycle ==> 0 <= x < |tv| && 0 <= links[x] < |tv| && tv[links[x]] == x && links[x] in cycle
  }

  lemma CycleClosed(tv: seq<int>, orig: int, path: seq<int>, links: seq<int>)
    requires IsPerm(tv, |tv|) && Path(tv, orig, path) && Turned(tv, links, path) && tv[path[|path| - 1]] == orig
    ensures Backwards(tv, links[orig := path[|path| - 1]], Elems(path)) && orig in Elems(path)
  {
    var last := path[|path| - 1];
    var r := links[orig := last];
    forall x | x in path ensures 0 <= x < |tv| && 0 <= r[x] < |tv| && tv[r[x]] == x && r[x] in path {
      var k :| 0 <= k < |path| && path[k] == x;
      if k > 0 {
        assert path[k] != path[0];
        assert links[path[k - 1 + 1]] == path[k - 1];
        assert tv[path[k - 1]] == path[k - 1 + 1];
      }
    }
  }

  /** Pointer reversal; it stops when it comes back to orig, however many other cycles there are. */
  method ReverseCycle(ll16: array<int>, ll4: array<int>, origPtr: int, nblock: int, ghost tv: seq<int>) returns (ghost cycle: set<int>)
    requires ll16 != ll4 && Packed(ll16[..], ll4[..], nblock) && nblock <= 900000 && Links(ll16[..], ll4[..], nblock) == tv
    requires IsPerm(tv, nblock) && 0 <= origPtr < nblock
    modifies ll16, ll4
    ensures Packed(ll16[..], ll4[..], nblock)
    ensures Backwards(tv, Links(ll16[..], ll4[..], nblock), cycle) && origPtr in cycle
  {
    var i := origPtr;
    LinkAt(ll16[..], ll4[..], nblock, i);
    var j := Link(ll16[..], ll4[..], i);
    ghost var path := [origPtr];
    cycle := {};
    assert Path(tv, origPtr, path) && Turned(tv, tv, path);
    hide Links, Link, Path, Turned, Backwards, Elems, IsPerm;
    var done := false;
    while !done
      invariant Packed(ll16[..], ll4[..], nblock)
      invariant !done ==> 0 <= i < nblock && path != [] && path[|path| - 1] == i && Path(tv, origPtr, path) && j == tv[i] && 0 <= j
      invariant !done ==> Turned(tv, Links(ll16[..], ll4[..], nblock), path)
      invariant done ==> Backwards(tv, Links(ll16[..], ll4[..], nblock), cycle) && origPtr in cycle
      decreases !done, nblock - |path|
    {
      ghost var links := Links(ll16[..], ll4[..], nblock);
      PathGrows(tv, origPtr, path, links, j);
      LinkAt(ll16[..], ll4[..], nblock, j);
      var tmp := Link(ll16[..], ll4[..], j);
      NextLink(tv, nblock, j);
      SetLink(ll16, ll4, j, i, nblock);
      if j == origPtr {
        CycleClosed(tv, origPtr, path, links);
        cycle := Elems(path);
      } else {
        path := path + [j];
        PathLength(tv, origPtr, path);
      }
      i, j := j, tmp;
      done := i == origPtr;
    }
  }

  lemma LinkAt(ll16: seq<int>, ll4: seq<int>, n: int, i: int)
    requires Packed(ll16, ll4, n) && 0 <= i < n
    ensures i / 2 < |ll4| && Link(ll16, ll4, i) == Links(ll16, ll4, n)[i]
  {
  }

  lemma NextLink(tv: seq<int>, n: int, j: int)
    requires IsPerm(tv, n) && 0 <= j < n
    ensures 0 <= tv[j] < n
  {
  }

  // ---------- the first column ----------

  /** BZ2_indexIntoF: the byte whose bucket holds row indx, by binary search in the running totals. */
  method IndexIntoF(indx: int, cftab: array<int>, ghost l: seq<byte>) returns (c: byte)
    requires cftab.Length == 257 && 0 <= indx < |l| && forall c :: 0 <= c <= 256 ==> cftab[c] == Below(l, |l|, c)
    ensures Below(l, |l|, c) <= indx < Below(l, |l|, c + 1)
  {
    BelowEnds(l, |l|, 0, 256);
    var nb, na := 0, 256;
    while na - nb != 1
      invariant 0 <= nb < na <= 256 && cftab[nb] <= indx < cftab[na]
      decreases na - nb
    {
      var mid := (nb + na) / 2;
      if indx >= cftab[mid] { nb := mid; } else { na := mid; }
    }
    c := nb;
  }

  /** On the reversed cycle, small mode follows the same links as fast mode and finds the same bytes. */
  lemma SmallIsFast(l: seq<byte>, tv: seq<int>, t: seq<int>, links: seq<int>, cycle: set<int>, row: int, c: int)
    requires StableOrder(l, t) && |tv| == |l| && forall x :: 0 <= x < |l| ==> tv[x] == Rank(l, x)
    requires Backwards(tv, links, cycle) && row in cycle
    requires Below(l, |l|, c) <= row < Below(l, |l|, c + 1)
    ensures IsPerm(t, |l|) && links[row] == t[row] && t[row] in cycle && c == l[t[row]]
  {
    hide Below, Rank, KeyPlaced, StableOrder, KeyBefore;
    StableOrderRows(l, t);
    StablePlaced(l, t);
    Placement(l, t, row);
    var d: int := l[t[row]];
    assert Rank(l, t[row]) == row && Rank(l, links[row]) == row;
    RankInjective(l, t[row], links[row]);
    if c < d { BelowMono(l, |l|, c + 1, d); } else if d < c { BelowMono(l, |l|, d + 1, c); }
  }
}
