/**
 * Why one scan of a sorted big bucket sorts all the small buckets that lead into it: prefixing the
 * rotations of the bucket, in order, with each byte gives the small buckets in order; and the rotations
 * starting with a run of the bucket's own byte are found by the scan as it goes.
 */
module ScanTheory {
  import opened Permutations
  import opened Rotations
  import opened Counting

  /** Compares h bytes from v with the constant byte c. */
  ghost function ConstCmp(b: seq<byte>, v: int, c: int, h: nat): (r: int)
    requires 0 <= v < |b|
    ensures -1 <= r <= 1
    decreases h
  {
    if h == 0 then 0
    else if b[v] < c then -1
    else if b[v] > c then 1
    else ConstCmp(b, Next(v, |b|), c, h - 1)
  }

  lemma {:induction false} ConstCmpMore(b: seq<byte>, v: int, c: int, h: nat, h': nat)
    requires 0 <= v < |b| && h <= h' && ConstCmp(b, v, c, h) != 0
    ensures ConstCmp(b, v, c, h') == ConstCmp(b, v, c, h)
    decreases h
  {
    if b[v] == c {
      ConstCmpMore(b, Next(v, |b|), c, h - 1, h' - 1);
    }
  }

  lemma {:induction false} ConstBytes(b: seq<byte>, v: int, c: int, h: nat, k: nat)
    requires 0 <= v < |b| && ConstCmp(b, v, c, h) == 0 && k < h
    ensures b[Step(v, k, |b|)] == c
    decreases k
  {
    if k > 0 {
      ConstBytes(b, Next(v, |b|), c, h - 1, k - 1);
    }
  }

  lemma ConstBlock(b: seq<byte>, v: int, c: int)
    requires 0 <= v < |b| && ConstCmp(b, v, c, |b|) == 0
    ensures forall i :: 0 <= i < |b| ==> b[i] == c
  {
    forall i | 0 <= i < |b| ensures b[i] == c {
      var k := if v <= i then i - v else i - v + |b|;
      StepWrap(v, k, |b|);
      ConstBytes(b, v, c, |b|, k);
    }
  }

  lemma {:induction false} AllConst(b: seq<byte>, v: int, w: int, c: int, h: nat)
    requires 0 <= v < |b| && 0 <= w < |b| && forall i :: 0 <= i < |b| ==> b[i] == c
    ensures ConstCmp(b, v, c, h) == 0 && Cmp(b, v, w, h) == 0
    decreases h
  {
    if h > 0 {
      AllConst(b, Next(v, |b|), Next(w, |b|), c, h - 1);
    }
  }

  /** Prefixing a rotation that leaves the run of c's on one side keeps it on that side. */
  lemma ConstPrev(b: seq<byte>, v: int, c: int)
    requires 0 <= v < |b| && b[Prev(v, |b|)] == c && ConstCmp(b, v, c, |b|) != 0
    ensures ConstCmp(b, Prev(v, |b|), c, |b|) == ConstCmp(b, v, c, |b|)
  {
    var k := Prev(v, |b|);
    assert ConstCmp(b, k, c, |b| + 1) == ConstCmp(b, v, c, |b|);
    if ConstCmp(b, k, c, |b|) == 0 {
      ConstBlock(b, k, c);
      AllConst(b, v, v, c, |b|);
    } else {
      ConstCmpMore(b, k, c, |b|, |b| + 1);
    }
  }

  lemma {:induction false} ConstSeparates(b: seq<byte>, v: int, w: int, c: int, h: nat)
    requires 0 <= v < |b| && 0 <= w < |b|
    requires ConstCmp(b, v, c, h) < 0 < ConstCmp(b, w, c, h)
    ensures Cmp(b, v, w, h) < 0
    decreases h
  {
    if b[v] == b[w] {
      ConstSeparates(b, Next(v, |b|), Next(w, |b|), c, h - 1);
    }
  }

  // ---------- lists of rotations in scan order ----------

  ghost predicate Valid(b: seq<byte>, vs: seq<int>) {
    forall x :: 0 <= x < |vs| ==> 0 <= vs[x] < |b|
  }

  /** In scan order: ascending when up, descending otherwise. */
  ghost predicate Before(b: seq<byte>, v: int, w: int, up: bool)
    requires 0 <= v < |b| && 0 <= w < |b|
  {
    v != w && if up then Cmp(b, v, w, |b|) <= 0 else Cmp(b, v, w, |b|) >= 0
  }

  ghost predicate Listed(b: seq<byte>, vs: seq<int>, up: bool) {
    && Valid(b, vs)
    && forall x, y :: 0 <= x < y < |vs| ==> Before(b, vs[x], vs[y], up)
  }

  function Side(up: bool): int { if up then -1 else 1 }

  /** All start with c, and leave the run of c's on the side scanned from. */
  ghost predicate OneSided(b: seq<byte>, vs: seq<int>, c: int, up: bool) {
    && Valid(b, vs)
    && forall x :: 0 <= x < |vs| ==> b[vs[x]] == c && ConstCmp(b, vs[x], c, |b|) == Side(up)
  }

  /** The predecessors, among those of vs, that start with u; in the same order. */
  ghost function Sel(b: seq<byte>, vs: seq<int>, u: int): (r: seq<int>)
    requires Valid(b, vs)
    ensures Valid(b, r) && |r| <= |vs|
    decreases |vs|
  {
    if vs == [] then [] else
      var v := Prev(vs[|vs| - 1], |b|);
      Sel(b, vs[..|vs| - 1], u) + if b[v] == u then [v] else []
  }

  lemma SelStep(b: seq<byte>, vs: seq<int>, v: int, u: int)
    requires Valid(b, vs) && 0 <= v < |b|
    ensures Valid(b, vs + [v])
    ensures Sel(b, vs + [v], u) == Sel(b, vs, u) + if b[Prev(v, |b|)] == u then [Prev(v, |b|)] else []
  {
    assert (vs + [v])[..|vs|] == vs;
  }

  lemma {:induction false} SelFrom(b: seq<byte>, vs: seq<int>, u: int, t: int) returns (y: int)
    requires Valid(b, vs) && 0 <= t < |Sel(b, vs, u)|
    ensures 0 <= y < |vs| && Sel(b, vs, u)[t] == Prev(vs[y], |b|) && b[Prev(vs[y], |b|)] == u
    decreases |vs|
  {
    var k := |vs| - 1;
    if t < |Sel(b, vs[..k], u)| {
      y := SelFrom(b, vs[..k], u, t);
    } else {
      y := k;
    }
  }

  lemma {:induction false} SelHits(b: seq<byte>, vs: seq<int>, u: int, y: int)
    requires Valid(b, vs) && 0 <= y < |vs| && b[Prev(vs[y], |b|)] == u
    ensures Prev(vs[y], |b|) in Sel(b, vs, u)
    decreases |vs|
  {
    var k := |vs| - 1;
    if y < k {
      SelHits(b, vs[..k], u, y);
    }
  }

  lemma BeforePrev(b: seq<byte>, v: int, w: int, up: bool)
    requires 0 <= v < |b| && 0 <= w < |b| && Before(b, v, w, up)
    requires b[Prev(v, |b|)] == b[Prev(w, |b|)]
    ensures Before(b, Prev(v, |b|), Prev(w, |b|), up)
  {
    PrevOrder(b, v, w);
    assert Next(Prev(v, |b|), |b|) == v && Next(Prev(w, |b|), |b|) == w;
  }

  lemma {:induction false} SelListed(b: seq<byte>, vs: seq<int>, u: int, up: bool)
    requires Listed(b, vs, up)
    ensures Listed(b, Sel(b, vs, u), up)
    decreases |vs|
  {
    if vs != [] {
      var k := |vs| - 1;
      var r, s := Sel(b, vs[..k], u), Sel(b, vs, u);
      SelListed(b, vs[..k], u, up);
      forall x, y | 0 <= x < y < |s| ensures Before(b, s[x], s[y], up) {
        if y == |r| {
          var z := SelFrom(b, vs[..k], u, x);
          BeforePrev(b, vs[z], vs[k], up);
        }
      }
    }
  }

  // ---------- the scanned list grows while it is scanned ----------

  /**
   * a is the list being scanned, its first m entries done: the heads i, whose second byte is not c, then
   * the predecessors starting with c that the scan has found so far.
   */
  ghost predicate Grown(b: seq<byte>, c: int, i: seq<int>, a: seq<int>, m: nat, up: bool) {
    && |b| >= 2 && m <= |a|
    && Listed(b, a, up) && OneSided(b, a, c, up)
    && a == i + Sel(b, a[..m], c)
    && forall x :: 0 <= x < |i| ==> b[Next(a[x], |b|)] != c
  }

  /** A head comes before every predecessor found for the same run. */
  lemma HeadBefore(b: seq<byte>, c: int, v: int, w: int, up: bool)
    requires |b| >= 2 && 0 <= v < |b| && 0 <= w < |b|
    requires b[v] == c && ConstCmp(b, v, c, |b|) == Side(up) && b[Next(v, |b|)] != c
    requires b[w] == c && b[Next(w, |b|)] == c
    ensures Before(b, v, w, up)
  {
    var n := |b|;
    assert ConstCmp(b, v, c, n) == ConstCmp(b, Next(v, n), c, n - 1);
    assert Cmp(b, v, w, n) == Cmp(b, Next(v, n), Next(w, n), n - 1);
  }

  lemma GrowFound(b: seq<byte>, c: int, i: seq<int>, a: seq<int>, m: nat, up: bool)
    requires Grown(b, c, i, a, m, up) && m < |a| && b[Prev(a[m], |b|)] == c
    ensures Grown(b, c, i, a + [Prev(a[m], |b|)], m + 1, up)
  {
    hide Cmp, ConstCmp, Sel;
    var k := Prev(a[m], |b|);
    var a' := a + [k];
    ConstPrev(b, a[m], c);
    assert a'[..m + 1] == a[..m] + [a[m]];
    SelStep(b, a[..m], a[m], c);
    assert a' == i + Sel(b, a'[..m + 1], c);
    forall x, y | 0 <= x < y < |a'| ensures Before(b, a'[x], a'[y], up) {
      if y == |a| {
        if x < |i| {
          HeadBefore(b, c, a[x], k, up);
        } else {
          var z := SelFrom(b, a[..m], c, x - |i|);
          BeforePrev(b, a[z], a[m], up);
        }
      }
    }
  }

  lemma GrowOther(b: seq<byte>, c: int, i: seq<int>, a: seq<int>, m: nat, up: bool)
    requires Grown(b, c, i, a, m, up) && m < |a| && b[Prev(a[m], |b|)] != c
    ensures Grown(b, c, i, a, m + 1, up)
  {
    assert a[..m + 1] == a[..m] + [a[m]];
    SelStep(b, a[..m], a[m], c);
  }

  /** i holds every head of the side. */
  ghost predicate AllHeads(b: seq<byte>, c: int, i: seq<int>, up: bool) {
    forall v :: 0 <= v < |b| && b[v] == c && (if up then b[Next(v, |b|)] < c else b[Next(v, |b|)] > c) ==> v in i
  }

  /** When the scan has caught up with the list, nothing of the side is missing from it. */
  lemma {:induction false} NothingMissing(b: seq<byte>, c: int, i: seq<int>, a: seq<int>, up: bool, v: int, h: nat)
    requires Grown(b, c, i, a, |a|, up) && AllHeads(b, c, i, up)
    requires 0 <= v < |b| && b[v] == c && ConstCmp(b, v, c, h) == Side(up)
    ensures v in a
    decreases h
  {
    var w := Next(v, |b|);
    assert a[..|a|] == a;
    if b[w] == c {
      NothingMissing(b, c, i, a, up, w, h - 1);
      var y :| 0 <= y < |a| && a[y] == w;
      assert Prev(w, |b|) == v;
      SelHits(b, a, c, y);
    } else {
      assert v in i;
    }
  }

  // ---------- counting ----------

  ghost function KeySet(keys: seq<int>, m: nat, key: int): (r: set<int>)
    requires m <= |keys|
    ensures |r| == Occ(keys, m, key)
    ensures forall x :: x in r <==> 0 <= x < m && keys[x] == key
    decreases m
  {
    if m == 0 then {} else KeySet(keys, m - 1, key) + if keys[m - 1] == key then {m - 1} else {}
  }

  lemma KeyCount(keys: seq<int>, vs: seq<int>, key: int)
    requires Injective(vs) && forall x :: 0 <= x < |vs| ==> 0 <= vs[x] < |keys| && keys[vs[x]] == key
    ensures |vs| <= Occ(keys, |keys|, key)
    ensures (forall v :: 0 <= v < |keys| && keys[v] == key ==> v in vs) <==> |vs| == Occ(keys, |keys|, key)
  {
    var ks := KeySet(keys, |keys|, key);
    hide Occ, Injective;
    InjectiveCard(vs);
    SubsetCard(Elems(vs), ks);
    if forall v :: 0 <= v < |keys| && keys[v] == key ==> v in vs {
      forall x | x in ks ensures x in Elems(vs) {
      }
      assert ks == Elems(vs);
    } else {
      var v :| 0 <= v < |keys| && keys[v] == key && v !in vs;
      assert v in ks && v !in Elems(vs);
    }
  }

  /** The two-byte key of the small bucket that rotation i belongs to. */
  ghost function Key(b: seq<byte>, i: int): int
    requires 0 <= i < |b|
  {
    256 * (b[i] as int) + b[Next(i, |b|)] as int
  }

  ghost function Keys(b: seq<byte>): (r: seq<int>)
    ensures |r| == |b|
    ensures forall i :: 0 <= i < |b| ==> r[i] == Key(b, i)
  {
    seq(|b|, i requires 0 <= i < |b| => Key(b, i))
  }

  /** Predecessors found from both ends of big bucket c that start with u: all different, all in bucket (u, c). */
  lemma RegionCount(b: seq<byte>, c: byte, u: byte, ls: seq<int>, hs: seq<int>)
    requires Listed(b, ls, true) && Listed(b, hs, false)
    requires OneSided(b, ls, c, true) && OneSided(b, hs, c, false)
    ensures var r := Sel(b, ls, u) + Sel(b, hs, u);
            && Injective(r) && Valid(b, r)
            && (forall x :: 0 <= x < |r| ==> Keys(b)[r[x]] == 256 * u + c)
            && |r| <= Occ(Keys(b), |b|, 256 * u + c)
  {
    hide Cmp, ConstCmp, Sel, Occ;
    var l, h := Sel(b, ls, u), Sel(b, hs, u);
    var r := l + h;
    SelListed(b, ls, u, true);
    SelListed(b, hs, u, false);
    forall x | 0 <= x < |r| ensures Keys(b)[r[x]] == 256 * u + c {
      if x < |l| { var y := SelFrom(b, ls, u, x); } else { var y := SelFrom(b, hs, u, x - |l|); }
    }
    forall x, y | 0 <= x < y < |r| ensures r[x] != r[y] {
      if x < |l| <= y {
        var x' := SelFrom(b, ls, u, x);
        var y' := SelFrom(b, hs, u, y - |l|);
        assert Next(r[x], |b|) == ls[x'] && Next(r[y], |b|) == hs[y'];
      } else if x < |l| {
        assert Before(b, l[x], l[y], true);
      } else {
        assert Before(b, h[x - |l|], h[y - |l|], false);
      }
    }
    KeyCount(Keys(b), r, 256 * u + c);
  }

  /** After both scans have caught up, unless the block is c throughout, every bucket (u, c) is complete. */
  lemma RegionFull(b: seq<byte>, c: byte, u: byte, il: seq<int>, ih: seq<int>, ls: seq<int>, hs: seq<int>)
    requires Grown(b, c, il, ls, |ls|, true) && AllHeads(b, c, il, true)
    requires Grown(b, c, ih, hs, |hs|, false) && AllHeads(b, c, ih, false)
    requires exists x :: 0 <= x < |b| && b[x] != c
    ensures |Sel(b, ls, u)| + |Sel(b, hs, u)| == Occ(Keys(b), |b|, 256 * u + c)
  {
    hide Cmp, ConstCmp, Sel, Occ, Injective, OneSided;
    RegionCount(b, c, u, ls, hs);
    var r := Sel(b, ls, u) + Sel(b, hs, u);
    forall v | 0 <= v < |b| && Keys(b)[v] == 256 * u + c ensures v in r {
      var w := Next(v, |b|);
      assert b[v] == u && b[w] == c && Prev(w, |b|) == v;
      if ConstCmp(b, w, c, |b|) == 0 { ConstBlock(b, w, c); assert false; }
      var up := ConstCmp(b, w, c, |b|) < 0;
      var a := if up then ls else hs;
      NothingMissing(b, c, if up then il else ih, a, up, w, |b|);
      var y :| 0 <= y < |a| && a[y] == w;
      SelHits(b, a, u, y);
    }
    KeyCount(Keys(b), r, 256 * u + c);
  }

  /** The low part read forwards, then the high part read backwards, is in rotation order. */
  lemma RegionOrder(b: seq<byte>, c: byte, u: byte, ls: seq<int>, hs: seq<int>, v: int, w: int)
    requires Listed(b, ls, true) && Listed(b, hs, false)
    requires OneSided(b, ls, c, true) && OneSided(b, hs, c, false)
    requires v in Sel(b, ls, u) && w in Sel(b, hs, u)
    ensures Cmp(b, v, w, |b|) <= 0
  {
    var x :| 0 <= x < |Sel(b, ls, u)| && Sel(b, ls, u)[x] == v;
    var y :| 0 <= y < |Sel(b, hs, u)| && Sel(b, hs, u)[y] == w;
    var x' := SelFrom(b, ls, u, x);
    var y' := SelFrom(b, hs, u, y);
    ConstSeparates(b, ls[x'], hs[y'], c, |b|);
    PrevOrder(b, ls[x'], hs[y']);
  }
}
