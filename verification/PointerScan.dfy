/** The two-ended pointer scan: one sorted big bucket puts every small bucket leading into it in order. */
module PointerScan {
  import opened Permutations
  import opened Rotations
  import opened Counting
  import opened ScanTheory

  /** First row of the small bucket with two-byte key k. */
  ghost function Start(b: seq<byte>, k: int): (r: int)
    ensures 0 <= r <= |b|
  {
    Below(Keys(b), |b|, k)
  }

  lemma BucketSize(b: seq<byte>, k: int)
    ensures Start(b, k + 1) == Start(b, k) + Occ(Keys(b), |b|, k)
  {
    BelowNext(Keys(b), |b|, k);
  }

  lemma StartMono(b: seq<byte>, k: int, l: int)
    requires k <= l
    ensures Start(b, k) <= Start(b, l)
  {
    BelowMono(Keys(b), |b|, k, l);
  }

  /** What bucket (u, c) has received: lo from its front, hi from its back; the rest of it is untouched. */
  ghost predicate Received(b: seq<byte>, k: int, p0: seq<int>, p: seq<int>, cs: int, ce: int, lo: seq<int>, hi: seq<int>) {
    && |p| == |p0| == |b|
    && cs == Start(b, k) + |lo| && ce == Start(b, k + 1) - 1 - |hi|
    && cs <= ce + 1
    && (forall t :: 0 <= t < |lo| ==> p[Start(b, k) + t] == lo[t])
    && (forall t :: 0 <= t < |hi| ==> p[Start(b, k + 1) - 1 - t] == hi[t])
    && (forall x :: cs <= x <= ce ==> p[x] == p0[x])
  }

  /** The lists behind a scan: low and high heads, and the rows scanned or to be scanned on either side. */
  datatype Lists = Lists(il: seq<int>, a: seq<int>, ma: nat, ih: seq<int>, h: seq<int>, mh: nat)

  ghost predicate Growing(b: seq<byte>, c: int, ls: Lists) {
    && Grown(b, c, ls.il, ls.a, ls.ma, true)
    && Grown(b, c, ls.ih, ls.h, ls.mh, false)
  }

  ghost function Lows(b: seq<byte>, c: int, ls: Lists, u: int): seq<int>
    requires Growing(b, c, ls)
  {
    Sel(b, ls.a[..ls.ma], u)
  }

  ghost function Highs(b: seq<byte>, c: int, ls: Lists, u: int): seq<int>
    requires Growing(b, c, ls)
  {
    Sel(b, ls.h[..ls.mh], u)
  }

  /** Rotation v is placed by the scan of big bucket c: it leads into c and its own big bucket is open. */
  ghost predicate Moved(b: seq<byte>, c: int, done: seq<bool>, v: int)
    requires 0 <= v < |b| && |done| == 256
  {
    b[Next(v, |b|)] == c && !done[b[v]]
  }

  /** Heads sit at the outer ends of the big bucket. */
  ghost predicate HeadsPlaced(b: seq<byte>, c: byte, p0: seq<int>, ls: Lists)
    requires |p0| == |b|
  {
    && |ls.il| == Start(b, 256 * c + c) - Start(b, 256 * c)
    && |ls.ih| == Start(b, 256 * (c + 1)) - Start(b, 256 * c + c + 1)
    && (forall t :: 0 <= t < |ls.il| ==> p0[Start(b, 256 * c) + t] == ls.il[t])
    && (forall t :: 0 <= t < |ls.ih| ==> p0[Start(b, 256 * (c + 1)) - 1 - t] == ls.ih[t])
  }

  ghost predicate ScanState(b: seq<byte>, c: byte, p0: seq<int>, p: seq<int>, done: seq<bool>,
                            cs: seq<int>, ce: seq<int>, ls: Lists) {
    && KeyPlaced(Keys(b), p0) && |p| == |b| && |done| == |cs| == |ce| == 256 && !done[c]
    && Growing(b, c, ls)
    && HeadsPlaced(b, c, p0, ls)
    && (forall u: byte :: !done[u] ==>
          Received(b, 256 * u + c, p0, p, cs[u], ce[u], Lows(b, c, ls, u), Highs(b, c, ls, u)))
    && (forall x :: 0 <= x < |b| && !Moved(b, c, done, p0[x]) ==> p[x] == p0[x])
  }

  /** The big bucket around its own small bucket. */
  lemma BigBucket(b: seq<byte>, c: byte)
    ensures 0 <= Start(b, 256 * c) <= Start(b, 256 * c + c) <= Start(b, 256 * c + c + 1) <= Start(b, 256 * (c + 1)) <= |b|
  {
    StartMono(b, 256 * c, 256 * c + c);
    StartMono(b, 256 * c + c, 256 * c + c + 1);
    StartMono(b, 256 * c + c + 1, 256 * (c + 1));
  }

  /** The scan limits: where the lists end in the array. */
  lemma Limits(b: seq<byte>, c: byte, p0: seq<int>, p: seq<int>, done: seq<bool>, cs: seq<int>, ce: seq<int>, ls: Lists)
    requires ScanState(b, c, p0, p, done, cs, ce, ls)
    ensures cs[c] == Start(b, 256 * c) + |ls.a| && ce[c] == Start(b, 256 * (c + 1)) - 1 - |ls.h|
    ensures cs[c] <= ce[c] + 1
    ensures |p| == |b| && |cs| == |ce| == |done| == 256 && ls.ma <= |ls.a| && ls.mh <= |ls.h|
    ensures Valid(b, ls.a) && Valid(b, ls.h)
    ensures forall x :: 0 <= x < |b| ==> 0 <= p0[x] < |b|
  {
    hide Start, Cmp, ConstCmp, Sel;
    assert Received(b, 256 * c + c, p0, p, cs[c], ce[c], Lows(b, c, ls, c), Highs(b, c, ls, c));
  }

  /** The list being scanned from the front is what the array holds from the start of the big bucket. */
  lemma LowRows(b: seq<byte>, c: byte, p0: seq<int>, p: seq<int>, done: seq<bool>, cs: seq<int>, ce: seq<int>, ls: Lists, t: int)
    requires ScanState(b, c, p0, p, done, cs, ce, ls) && 0 <= t < |ls.a|
    ensures Start(b, 256 * c) + t < |b| && p[Start(b, 256 * c) + t] == ls.a[t]
  {
    BigBucket(b, c);
    hide Start, Cmp, ConstCmp, Sel;
    assert Received(b, 256 * c + c, p0, p, cs[c], ce[c], Lows(b, c, ls, c), Highs(b, c, ls, c));
    if t < |ls.il| {
      assert p0[Start(b, 256 * c) + t] == ls.il[t] == ls.a[t];
    }
  }

  lemma HighRows(b: seq<byte>, c: byte, p0: seq<int>, p: seq<int>, done: seq<bool>, cs: seq<int>, ce: seq<int>, ls: Lists, t: int)
    requires ScanState(b, c, p0, p, done, cs, ce, ls) && 0 <= t < |ls.h|
    ensures 0 <= Start(b, 256 * (c + 1)) - 1 - t < |b| && p[Start(b, 256 * (c + 1)) - 1 - t] == ls.h[t]
  {
    BigBucket(b, c);
    hide Start, Cmp, ConstCmp, Sel;
    assert Received(b, 256 * c + c, p0, p, cs[c], ce[c], Lows(b, c, ls, c), Highs(b, c, ls, c));
    if t < |ls.ih| {
      assert p0[Start(b, 256 * (c + 1)) - 1 - t] == ls.ih[t] == ls.h[t];
    } else {
      assert ls.h[t] == Highs(b, c, ls, c)[t - |ls.ih|];
    }
  }

  // ---------- one step of the scan ----------

  lemma ListedPrefix(b: seq<byte>, vs: seq<int>, m: nat, c: int, up: bool)
    requires Listed(b, vs, up) && OneSided(b, vs, c, up) && m <= |vs|
    ensures Listed(b, vs[..m], up) && OneSided(b, vs[..m], c, up)
  {
  }

  /** The predecessor k of a scanned entry, if it belongs to the big bucket being scanned. */
  ghost function Found(b: seq<byte>, c: int, k: int): seq<int>
    requires 0 <= k < |b|
  {
    if b[k] == c then [k] else []
  }

  /** The lists after scanning one more entry from the front. */
  ghost function NextLow(b: seq<byte>, c: int, ls: Lists): Lists
    requires Growing(b, c, ls) && ls.ma < |ls.a|
  {
    ls.(a := ls.a + Found(b, c, Prev(ls.a[ls.ma], |b|)), ma := ls.ma + 1)
  }

  /** The lists after scanning one more entry from the back. */
  ghost function NextHigh(b: seq<byte>, c: int, ls: Lists): Lists
    requires Growing(b, c, ls) && ls.mh < |ls.h|
  {
    ls.(h := ls.h + Found(b, c, Prev(ls.h[ls.mh], |b|)), mh := ls.mh + 1)
  }

  lemma GrowOne(b: seq<byte>, c: int, i: seq<int>, a: seq<int>, m: nat, up: bool)
    requires Grown(b, c, i, a, m, up) && m < |a|
    ensures Grown(b, c, i, a + Found(b, c, Prev(a[m], |b|)), m + 1, up)
    ensures (a + Found(b, c, Prev(a[m], |b|)))[..m + 1] == a[..m] + [a[m]]
  {
    if b[Prev(a[m], |b|)] == c {
      GrowFound(b, c, i, a, m, up);
    } else {
      GrowOther(b, c, i, a, m, up);
      assert a + [] == a;
    }
  }

  lemma NextLowGrows(b: seq<byte>, c: int, ls: Lists)
    requires Growing(b, c, ls) && ls.ma < |ls.a|
    ensures var k := Prev(ls.a[ls.ma], |b|); var r := NextLow(b, c, ls);
            && Growing(b, c, r)
            && (forall u :: u != b[k] ==> Lows(b, c, r, u) == Lows(b, c, ls, u))
            && Lows(b, c, r, b[k]) == Lows(b, c, ls, b[k]) + [k]
            && (forall u :: Highs(b, c, r, u) == Highs(b, c, ls, u))
  {
    hide Cmp, ConstCmp, Sel;
    GrowOne(b, c, ls.il, ls.a, ls.ma, true);
    NextSel(b, ls.a[..ls.ma], ls.a[ls.ma]);
  }

  lemma NextHighGrows(b: seq<byte>, c: int, ls: Lists)
    requires Growing(b, c, ls) && ls.mh < |ls.h|
    ensures var k := Prev(ls.h[ls.mh], |b|); var r := NextHigh(b, c, ls);
            && Growing(b, c, r)
            && (forall u :: u != b[k] ==> Highs(b, c, r, u) == Highs(b, c, ls, u))
            && Highs(b, c, r, b[k]) == Highs(b, c, ls, b[k]) + [k]
            && (forall u :: Lows(b, c, r, u) == Lows(b, c, ls, u))
  {
    hide Cmp, ConstCmp, Sel;
    GrowOne(b, c, ls.ih, ls.h, ls.mh, false);
    NextSel(b, ls.h[..ls.mh], ls.h[ls.mh]);
  }

  lemma NextSel(b: seq<byte>, vs: seq<int>, v: int)
    requires Valid(b, vs) && 0 <= v < |b|
    ensures Valid(b, vs + [v])
    ensures forall u :: u != b[Prev(v, |b|)] ==> Sel(b, vs + [v], u) == Sel(b, vs, u)
    ensures Sel(b, vs + [v], b[Prev(v, |b|)]) == Sel(b, vs, b[Prev(v, |b|)]) + [Prev(v, |b|)]
  {
    forall u | u != b[Prev(v, |b|)] ensures Sel(b, vs + [v], u) == Sel(b, vs, u) {
      SelStep(b, vs, v, u);
    }
    SelStep(b, vs, v, b[Prev(v, |b|)]);
  }

  /** Together, the two parts of a bucket never exceed it. */
  lemma PartsFit(b: seq<byte>, c: byte, ls: Lists, u: byte)
    requires Growing(b, c, ls)
    ensures Start(b, 256 * u + c) + |Lows(b, c, ls, u)| + |Highs(b, c, ls, u)| <= Start(b, 256 * u + c + 1)
  {
    hide Cmp, ConstCmp, Sel, Start;
    ListedPrefix(b, ls.a, ls.ma, c, true);
    ListedPrefix(b, ls.h, ls.mh, c, false);
    RegionCount(b, c, u, ls.a[..ls.ma], ls.h[..ls.mh]);
    BucketSize(b, 256 * u + c);
  }

  /** Rows of different small buckets do not meet, and rows of bucket (u, c) hold rotations the scan moves. */
  lemma RegionRows(b: seq<byte>, c: byte, p0: seq<int>, u: byte, x: int)
    requires KeyPlaced(Keys(b), p0) && Start(b, 256 * u + c) <= x < Start(b, 256 * u + c + 1)
    ensures 0 <= x < |b| && 0 <= p0[x] < |b| && b[p0[x]] == u && b[Next(p0[x], |b|)] == c
    ensures forall w: byte :: w != u ==> !(Start(b, 256 * w + c) <= x < Start(b, 256 * w + c + 1))
  {
    RowKey(Keys(b), p0, x, 256 * u + c);
    forall w: byte | w != u ensures !(Start(b, 256 * w + c) <= x < Start(b, 256 * w + c + 1)) {
      if Start(b, 256 * w + c) <= x < Start(b, 256 * w + c + 1) {
        OneBucket(Keys(b), x, 256 * u + c, 256 * w + c);
      }
    }
  }

  lemma ReceivedSame(b: seq<byte>, k: int, p0: seq<int>, p: seq<int>, x: int, v: int, cs: int, ce: int, lo: seq<int>, hi: seq<int>)
    requires Received(b, k, p0, p, cs, ce, lo, hi) && 0 <= x < |p|
    requires !(Start(b, k) <= x < Start(b, k + 1))
    ensures Received(b, k, p0, p[x := v], cs, ce, lo, hi)
  {
    hide Start;
  }

  lemma ReceiveLow(b: seq<byte>, k: int, p0: seq<int>, p: seq<int>, v: int, cs: int, ce: int, lo: seq<int>, hi: seq<int>)
    requires Received(b, k, p0, p, cs, ce, lo, hi) && 0 <= cs < |p| && cs <= ce
    ensures Received(b, k, p0, p[cs := v], cs + 1, ce, lo + [v], hi)
  {
    hide Start;
  }

  lemma ReceiveHigh(b: seq<byte>, k: int, p0: seq<int>, p: seq<int>, v: int, cs: int, ce: int, lo: seq<int>, hi: seq<int>)
    requires Received(b, k, p0, p, cs, ce, lo, hi) && 0 <= ce < |p| && cs <= ce
    ensures Received(b, k, p0, p[ce := v], cs, ce - 1, lo, hi + [v])
  {
    hide Start;
  }

  lemma BucketState(b: seq<byte>, c: byte, p0: seq<int>, p: seq<int>, done: seq<bool>, cs: seq<int>, ce: seq<int>, ls: Lists, w: byte)
    requires ScanState(b, c, p0, p, done, cs, ce, ls) && !done[w]
    ensures Received(b, 256 * w + c, p0, p, cs[w], ce[w], Lows(b, c, ls, w), Highs(b, c, ls, w))
  {
  }

  /** Placing k at row x of its bucket u disturbs nothing else. */
  lemma PlacedInBucket(b: seq<byte>, c: byte, p0: seq<int>, p: seq<int>, done: seq<bool>, cs: seq<int>, ce: seq<int>, ls: Lists,
                       u: byte, x: int, v: int)
    requires ScanState(b, c, p0, p, done, cs, ce, ls) && !done[u]
    requires Start(b, 256 * u + c) <= x < Start(b, 256 * u + c + 1)
    ensures 0 <= x < |p|
    ensures forall w: byte :: !done[w] && w != u ==>
              Received(b, 256 * w + c, p0, p[x := v], cs[w], ce[w], Lows(b, c, ls, w), Highs(b, c, ls, w))
    ensures forall y :: 0 <= y < |b| && !Moved(b, c, done, p0[y]) ==> p[x := v][y] == p0[y]
  {
    hide Cmp, ConstCmp, Sel, Received, Growing;
    RegionRows(b, c, p0, u, x);
    forall w: byte | !done[w] && w != u
      ensures Received(b, 256 * w + c, p0, p[x := v], cs[w], ce[w], Lows(b, c, ls, w), Highs(b, c, ls, w))
    {
      ReceivedSame(b, 256 * w + c, p0, p, x, v, cs[w], ce[w], Lows(b, c, ls, w), Highs(b, c, ls, w));
    }
  }

  /** The entry under the front cursor is scanned: its predecessor goes to the front of its bucket. */
  lemma StepLow(b: seq<byte>, c: byte, p0: seq<int>, p: seq<int>, done: seq<bool>, cs: seq<int>, ce: seq<int>, ls: Lists)
    requires ScanState(b, c, p0, p, done, cs, ce, ls) && ls.ma < |ls.a| && 0 <= ls.a[ls.ma] < |b|
    ensures var k := Prev(ls.a[ls.ma], |b|); var u := b[k];
            if done[u] then ScanState(b, c, p0, p, done, cs, ce, NextLow(b, c, ls))
            else 0 <= cs[u] < |b| && ScanState(b, c, p0, p[cs[u] := k], done, cs[u := cs[u] + 1], ce, NextLow(b, c, ls))
  {
    hide Cmp, ConstCmp, Sel, Start, Received, Growing, Lows, Highs;
    var k := Prev(ls.a[ls.ma], |b|);
    var u := b[k];
    var r := NextLow(b, c, ls);
    NextLowGrows(b, c, ls);
    if !done[u] {
      BucketState(b, c, p0, p, done, cs, ce, ls, u);
      PartsFit(b, c, r, u);
      RoomIn(b, 256 * u + c, p0, p, cs[u], ce[u], Lows(b, c, ls, u), Highs(b, c, ls, u));
      ReceiveLow(b, 256 * u + c, p0, p, k, cs[u], ce[u], Lows(b, c, ls, u), Highs(b, c, ls, u));
      PlacedInBucket(b, c, p0, p, done, cs, ce, ls, u, cs[u], k);
    }
  }

  lemma RoomIn(b: seq<byte>, k: int, p0: seq<int>, p: seq<int>, cs: int, ce: int, lo: seq<int>, hi: seq<int>)
    requires Received(b, k, p0, p, cs, ce, lo, hi) && Start(b, k) + |lo| + |hi| < Start(b, k + 1)
    ensures cs <= ce && Start(b, k) <= cs < Start(b, k + 1) && Start(b, k) <= ce < Start(b, k + 1)
    ensures 0 <= cs < |p| && 0 <= ce < |p|
  {
    hide Start;
  }

  lemma StepHigh(b: seq<byte>, c: byte, p0: seq<int>, p: seq<int>, done: seq<bool>, cs: seq<int>, ce: seq<int>, ls: Lists)
    requires ScanState(b, c, p0, p, done, cs, ce, ls) && ls.mh < |ls.h| && 0 <= ls.h[ls.mh] < |b|
    ensures var k := Prev(ls.h[ls.mh], |b|); var u := b[k];
            if done[u] then ScanState(b, c, p0, p, done, cs, ce, NextHigh(b, c, ls))
            else 0 <= ce[u] < |b| && ScanState(b, c, p0, p[ce[u] := k], done, cs, ce[u := ce[u] - 1], NextHigh(b, c, ls))
  {
    hide Cmp, ConstCmp, Sel, Start, Received, Growing, Lows, Highs;
    var k := Prev(ls.h[ls.mh], |b|);
    var u := b[k];
    var r := NextHigh(b, c, ls);
    NextHighGrows(b, c, ls);
    if !done[u] {
      BucketState(b, c, p0, p, done, cs, ce, ls, u);
      PartsFit(b, c, r, u);
      RoomIn(b, 256 * u + c, p0, p, cs[u], ce[u], Lows(b, c, ls, u), Highs(b, c, ls, u));
      ReceiveHigh(b, 256 * u + c, p0, p, k, cs[u], ce[u], Lows(b, c, ls, u), Highs(b, c, ls, u));
      PlacedInBucket(b, c, p0, p, done, cs, ce, ls, u, ce[u], k);
    }
  }

  // ---------- the start of a scan ----------

  /** The rows of small bucket k are in rotation order. */
  ghost predicate BucketSorted(b: seq<byte>, p: seq<int>, k: int)
    requires KeyPlaced(Keys(b), p)
  {
    forall x, y :: Start(b, k) <= x < y < Start(b, k + 1) ==> Cmp(b, p[x], p[y], |b|) <= 0
  }

  lemma KeyOrder(b: seq<byte>, v: int, w: int)
    requires |b| >= 2 && 0 <= v < |b| && 0 <= w < |b| && Key(b, v) < Key(b, w)
    ensures Cmp(b, v, w, |b|) < 0
  {
    if b[v] == b[w] {
      assert Cmp(b, v, w, |b|) == Cmp(b, Next(v, |b|), Next(w, |b|), |b| - 1);
    }
  }

  lemma RowBucket(b: seq<byte>, p: seq<int>, x: int)
    requires KeyPlaced(Keys(b), p) && 0 <= x < |b|
    ensures 0 <= p[x] < |b|
    ensures Start(b, Key(b, p[x])) <= x < Start(b, Key(b, p[x]) + 1)
  {
    Placement(Keys(b), p, x);
  }

  lemma KeysAscend(b: seq<byte>, p: seq<int>, x: int, y: int)
    requires KeyPlaced(Keys(b), p) && 0 <= x <= y < |b|
    ensures 0 <= p[x] < |b| && 0 <= p[y] < |b| && Key(b, p[x]) <= Key(b, p[y])
  {
    RowBucket(b, p, x);
    RowBucket(b, p, y);
    var k, l := Key(b, p[x]), Key(b, p[y]);
    hide *;
    if l < k {
      StartMono(b, l + 1, k);
    }
  }

  /** Rows of p in a stretch of buckets all sorted are in rotation order. */
  lemma RowsInOrder(b: seq<byte>, p: seq<int>, x: int, y: int)
    requires |b| >= 2 && KeyPlaced(Keys(b), p) && 0 <= x < y < |b|
    requires BucketSorted(b, p, Key(b, p[x]))
    ensures Cmp(b, p[x], p[y], |b|) <= 0
  {
    KeysAscend(b, p, x, y);
    if Key(b, p[x]) < Key(b, p[y]) {
      KeyOrder(b, p[x], p[y]);
    } else {
      SameKeyRows(b, p, x, y, Key(b, p[x]));
    }
  }

  lemma SameKeyRows(b: seq<byte>, p: seq<int>, x: int, y: int, k: int)
    requires KeyPlaced(Keys(b), p) && 0 <= x < y < |b| && Key(b, p[x]) == Key(b, p[y]) == k && BucketSorted(b, p, k)
    ensures Cmp(b, p[x], p[y], |b|) <= 0
  {
    RowBucket(b, p, x);
    RowBucket(b, p, y);
    hide Start, Cmp, Key;
  }

  /** Keys of rows in a stretch of buckets. */
  lemma KeyWithin(b: seq<byte>, p: seq<int>, x: int, k: int, l: int)
    requires KeyPlaced(Keys(b), p) && Start(b, k) <= x < Start(b, l) && k <= l
    ensures 0 <= x < |b| && 0 <= p[x] < |b| && k <= Key(b, p[x]) < l
  {
    Placement(Keys(b), p, x);
    hide KeyPlaced;
    var m := Key(b, p[x]);
    if m < k { StartMono(b, m + 1, k); }
    if l <= m { StartMono(b, l, m); }
  }

  lemma KeyParts(b: seq<byte>, v: int, c: byte)
    requires 0 <= v < |b|
    ensures 256 * c <= Key(b, v) < 256 * (c + 1) <==> b[v] == c
    ensures b[v] == c ==> Key(b, v) == 256 * c + b[Next(v, |b|)]
  {
  }

  /** The rows of big bucket c before and behind its own small bucket are one-sided heads, in scan order. */
  lemma HeadRow(b: seq<byte>, p: seq<int>, c: byte, x: int, up: bool)
    requires |b| >= 2 && KeyPlaced(Keys(b), p)
    requires if up then Start(b, 256 * c) <= x < Start(b, 256 * c + c)
             else Start(b, 256 * c + c + 1) <= x < Start(b, 256 * (c + 1))
    ensures 0 <= x < |b| && 0 <= p[x] < |b| && b[p[x]] == c && b[Next(p[x], |b|)] != c
    ensures Key(b, p[x]) != 256 * c + c && 256 * c <= Key(b, p[x]) < 256 * (c + 1)
    ensures ConstCmp(b, p[x], c, |b|) == Side(up)
  {
    if up { KeyWithin(b, p, x, 256 * c, 256 * c + c); } else { KeyWithin(b, p, x, 256 * c + c + 1, 256 * (c + 1)); }
    KeyParts(b, p[x], c);
    assert ConstCmp(b, p[x], c, |b|) == ConstCmp(b, Next(p[x], |b|), c, |b| - 1);
  }

  ghost predicate OthersSorted(b: seq<byte>, p: seq<int>, c: byte)
    requires KeyPlaced(Keys(b), p)
  {
    forall k :: 256 * c <= k < 256 * (c + 1) && k != 256 * c + c ==> BucketSorted(b, p, k)
  }

  ghost function LowHeads(b: seq<byte>, p: seq<int>, c: byte): (r: seq<int>)
    requires |p| == |b|
    ensures |r| == Start(b, 256 * c + c) - Start(b, 256 * c)
  {
    BigBucket(b, c);
    p[Start(b, 256 * c)..Start(b, 256 * c + c)]
  }

  ghost function HighHeads(b: seq<byte>, p: seq<int>, c: byte): (r: seq<int>)
    requires |p| == |b|
    ensures |r| == Start(b, 256 * (c + 1)) - Start(b, 256 * c + c + 1)
  {
    BigBucket(b, c);
    var e := Start(b, 256 * (c + 1));
    seq(e - Start(b, 256 * c + c + 1), t requires 0 <= t < e - Start(b, 256 * c + c + 1) => p[e - 1 - t])
  }

  lemma LowHeadsGrown(b: seq<byte>, p: seq<int>, c: byte)
    requires |b| >= 2 && KeyPlaced(Keys(b), p) && OthersSorted(b, p, c)
    ensures Grown(b, c, LowHeads(b, p, c), LowHeads(b, p, c), 0, true)
    ensures AllHeads(b, c, LowHeads(b, p, c), true)
  {
    hide Start, Cmp, ConstCmp, BucketSorted;
    BigBucket(b, c);
    var i, s := LowHeads(b, p, c), Start(b, 256 * c);
    forall t | 0 <= t < |i|
      ensures 0 <= i[t] < |b| && b[i[t]] == c && b[Next(i[t], |b|)] != c && ConstCmp(b, i[t], c, |b|) == Side(true)
    {
      HeadRow(b, p, c, s + t, true);
    }
    forall t, r | 0 <= t < r < |i| ensures Before(b, i[t], i[r], true) {
      HeadRow(b, p, c, s + t, true);
      RowsInOrder(b, p, s + t, s + r);
    }
    assert i[..0] == [] && i + [] == i;
    forall v | 0 <= v < |b| && b[v] == c && b[Next(v, |b|)] < c ensures v in i {
      KeyParts(b, v, c);
      var x := HeadListed(b, p, c, v, 256 * c, 256 * c + c);
      assert i[x - s] == v;
    }
  }

  lemma HeadListed(b: seq<byte>, p: seq<int>, c: byte, v: int, k: int, l: int) returns (x: int)
    requires KeyPlaced(Keys(b), p) && 0 <= v < |b| && k <= Key(b, v) < l
    ensures Start(b, k) <= x < Start(b, l) && 0 <= x < |p| && p[x] == v
  {
    x := PermHits(p, |b|, v);
    Placement(Keys(b), p, x);
    StartMono(b, k, Key(b, v));
    StartMono(b, Key(b, v) + 1, l);
  }

  lemma HighHeadsGrown(b: seq<byte>, p: seq<int>, c: byte)
    requires |b| >= 2 && KeyPlaced(Keys(b), p) && OthersSorted(b, p, c)
    ensures Grown(b, c, HighHeads(b, p, c), HighHeads(b, p, c), 0, false)
    ensures AllHeads(b, c, HighHeads(b, p, c), false)
  {
    hide Start, Cmp, ConstCmp, BucketSorted;
    BigBucket(b, c);
    var i, e := HighHeads(b, p, c), Start(b, 256 * (c + 1));
    forall t | 0 <= t < |i|
      ensures 0 <= i[t] < |b| && b[i[t]] == c && b[Next(i[t], |b|)] != c && ConstCmp(b, i[t], c, |b|) == Side(false)
    {
      HeadRow(b, p, c, e - 1 - t, false);
    }
    forall t, r | 0 <= t < r < |i| ensures Before(b, i[t], i[r], false) {
      HeadRow(b, p, c, e - 1 - r, false);
      RowsInOrder(b, p, e - 1 - r, e - 1 - t);
      CmpSwap(b, i[r], i[t], |b|);
    }
    assert i[..0] == [] && i + [] == i;
    forall v | 0 <= v < |b| && b[v] == c && b[Next(v, |b|)] > c ensures v in i {
      KeyParts(b, v, c);
      var x := HeadListed(b, p, c, v, 256 * c + c + 1, 256 * (c + 1));
      assert i[e - 1 - x] == v;
    }
  }

  ghost function StartLists(b: seq<byte>, p: seq<int>, c: byte): Lists
    requires |p| == |b|
  {
    Lists(LowHeads(b, p, c), LowHeads(b, p, c), 0, HighHeads(b, p, c), HighHeads(b, p, c), 0)
  }

  lemma ScanStart(b: seq<byte>, p: seq<int>, c: byte, done: seq<bool>, cs: seq<int>, ce: seq<int>)
    requires |b| >= 2 && KeyPlaced(Keys(b), p) && OthersSorted(b, p, c)
    requires |done| == |cs| == |ce| == 256 && !done[c]
    requires forall u: byte :: cs[u] == Start(b, 256 * u + c) && ce[u] == Start(b, 256 * u + c + 1) - 1
    ensures ScanState(b, c, p, p, done, cs, ce, StartLists(b, p, c))
  {
    hide Start, Cmp, ConstCmp, BucketSorted, Grown, AllHeads;
    var ls := StartLists(b, p, c);
    LowHeadsGrown(b, p, c);
    HighHeadsGrown(b, p, c);
    BigBucket(b, c);
    forall u: byte | !done[u]
      ensures Received(b, 256 * u + c, p, p, cs[u], ce[u], Lows(b, c, ls, u), Highs(b, c, ls, u))
    {
      BucketSize(b, 256 * u + c);
      assert ls.a[..ls.ma] == [] && ls.h[..ls.mh] == [];
    }
  }

  // ---------- the end of a scan ----------

  /** Both cursors have caught up with what the scan produced. */
  ghost predicate Finished(ls: Lists) {
    ls.ma == |ls.a| && ls.mh == |ls.h|
  }

  ghost predicate Constant(b: seq<byte>, c: byte) {
    forall x :: 0 <= x < |b| ==> b[x] == c
  }

  /** The lists have every head they need. */
  ghost predicate Complete(b: seq<byte>, c: byte, ls: Lists) {
    AllHeads(b, c, ls.il, true) && AllHeads(b, c, ls.ih, false)
  }

  lemma StartComplete(b: seq<byte>, p: seq<int>, c: byte)
    requires |b| >= 2 && KeyPlaced(Keys(b), p) && OthersSorted(b, p, c)
    ensures Complete(b, c, StartLists(b, p, c))
  {
    hide Start, Cmp, ConstCmp, BucketSorted, Grown, AllHeads;
    LowHeadsGrown(b, p, c);
    HighHeadsGrown(b, p, c);
  }

  lemma Closed(b: seq<byte>, c: byte, ls: Lists, u: byte)
    requires Growing(b, c, ls) && Finished(ls) && Complete(b, c, ls) && !Constant(b, c)
    ensures Start(b, 256 * u + c) + |Lows(b, c, ls, u)| + |Highs(b, c, ls, u)| == Start(b, 256 * u + c + 1)
  {
    hide Cmp, ConstCmp, Sel, Start, AllHeads;
    assert ls.a[..ls.ma] == ls.a && ls.h[..ls.mh] == ls.h;
    RegionFull(b, c, u, ls.il, ls.ih, ls.a, ls.h);
    BucketSize(b, 256 * u + c);
  }

  /** Entry t of a full bucket: lo forwards, then hi backwards. */
  ghost function Read(lo: seq<int>, hi: seq<int>, t: int): int
    requires 0 <= t < |lo| + |hi|
  {
    if t < |lo| then lo[t] else hi[|lo| + |hi| - 1 - t]
  }

  /** A row of a filled bucket holds what was received there. */
  lemma ReceivedRow(b: seq<byte>, k: int, p0: seq<int>, p: seq<int>, cs: int, ce: int, lo: seq<int>, hi: seq<int>, x: int)
    requires Received(b, k, p0, p, cs, ce, lo, hi) && cs == ce + 1
    requires Start(b, k) <= x < Start(b, k + 1)
    ensures 0 <= x - Start(b, k) < |lo| + |hi| && 0 <= x < |p| && p[x] == Read(lo, hi, x - Start(b, k))
  {
    hide Start;
    if x >= cs {
      var t := Start(b, k + 1) - 1 - x;
      assert p[Start(b, k + 1) - 1 - t] == hi[t];
    }
  }

  lemma ReadKey(b: seq<byte>, k: int, lo: seq<int>, hi: seq<int>, t: int)
    requires Valid(b, lo + hi) && 0 <= t < |lo| + |hi|
    requires forall x :: 0 <= x < |lo + hi| ==> Keys(b)[(lo + hi)[x]] == k
    ensures 0 <= Read(lo, hi, t) < |b| && Key(b, Read(lo, hi, t)) == k
  {
    assert (lo + hi)[if t < |lo| then t else |lo| + (|lo| + |hi| - 1 - t)] == Read(lo, hi, t);
  }

  /** Predecessors found from both ends, read as a bucket, are distinct rotations of its key, in order. */
  lemma ReadInOrder(b: seq<byte>, c: byte, u: byte, ls: seq<int>, hs: seq<int>, t: int, r: int)
    requires Listed(b, ls, true) && Listed(b, hs, false)
    requires OneSided(b, ls, c, true) && OneSided(b, hs, c, false)
    requires 0 <= t <= r < |Sel(b, ls, u)| + |Sel(b, hs, u)|
    ensures var v, w := Read(Sel(b, ls, u), Sel(b, hs, u), t), Read(Sel(b, ls, u), Sel(b, hs, u), r);
            && 0 <= v < |b| && 0 <= w < |b| && Key(b, v) == 256 * u + c
            && (t < r ==> v != w && Cmp(b, v, w, |b|) <= 0)
  {
    assert Valid(b, ls) && Valid(b, hs);
    hide *;
    ReadEntry(b, c, u, ls, hs, t);
    ReadEntry(b, c, u, ls, hs, r);
    if t < r {
      ReadOrder(b, c, u, ls, hs, t, r);
    }
  }

  lemma ReadEntry(b: seq<byte>, c: byte, u: byte, ls: seq<int>, hs: seq<int>, t: int)
    requires Listed(b, ls, true) && Listed(b, hs, false)
    requires OneSided(b, ls, c, true) && OneSided(b, hs, c, false)
    requires 0 <= t < |Sel(b, ls, u)| + |Sel(b, hs, u)|
    ensures var v := Read(Sel(b, ls, u), Sel(b, hs, u), t); 0 <= v < |b| && Key(b, v) == 256 * u + c
  {
    assert Valid(b, ls) && Valid(b, hs);
    hide *;
    RegionCount(b, c, u, ls, hs);
    ReadKey(b, 256 * u + c, Sel(b, ls, u), Sel(b, hs, u), t);
  }

  lemma ReadOrder(b: seq<byte>, c: byte, u: byte, ls: seq<int>, hs: seq<int>, t: int, r: int)
    requires Listed(b, ls, true) && Listed(b, hs, false)
    requires OneSided(b, ls, c, true) && OneSided(b, hs, c, false)
    requires 0 <= t < r < |Sel(b, ls, u)| + |Sel(b, hs, u)|
    ensures var v, w := Read(Sel(b, ls, u), Sel(b, hs, u), t), Read(Sel(b, ls, u), Sel(b, hs, u), r);
            0 <= v < |b| && 0 <= w < |b| && v != w && Cmp(b, v, w, |b|) <= 0
  {
    assert Valid(b, ls) && Valid(b, hs);
    hide *;
    var lo, hi := Sel(b, ls, u), Sel(b, hs, u);
    ReadPair(lo, hi, t);
    ReadPair(lo, hi, r);
    if r < |lo| {
      SelListed(b, ls, u, true);
      ListedPair(b, lo, true, t, r);
    } else if t < |lo| {
      ReadEntry(b, c, u, ls, hs, t);
      ReadEntry(b, c, u, ls, hs, r);
      BothParts(b, c, u, ls, hs, t, |lo| + |hi| - 1 - r);
    } else {
      SelListed(b, hs, u, false);
      ListedPair(b, hi, false, |lo| + |hi| - 1 - r, |lo| + |hi| - 1 - t);
      CmpSwap(b, hi[|lo| + |hi| - 1 - r], hi[|lo| + |hi| - 1 - t], |b|);
    }
  }

  lemma BothParts(b: seq<byte>, c: byte, u: byte, ls: seq<int>, hs: seq<int>, t: int, r: int)
    requires Listed(b, ls, true) && Listed(b, hs, false)
    requires OneSided(b, ls, c, true) && OneSided(b, hs, c, false)
    requires 0 <= t < |Sel(b, ls, u)| && 0 <= r < |Sel(b, hs, u)|
    ensures var v, w := Sel(b, ls, u)[t], Sel(b, hs, u)[r];
            0 <= v < |b| && 0 <= w < |b| && v != w && Cmp(b, v, w, |b|) <= 0
  {
    assert Valid(b, Sel(b, ls, u)) && Valid(b, Sel(b, hs, u));
    assert Valid(b, ls) && Valid(b, hs);
    hide *;
    RegionCount(b, c, u, ls, hs);
    DifferentParts(Sel(b, ls, u), Sel(b, hs, u), t, r);
    RegionOrder(b, c, u, ls, hs, Sel(b, ls, u)[t], Sel(b, hs, u)[r]);
  }

  lemma ReadPair(lo: seq<int>, hi: seq<int>, t: int)
    requires 0 <= t < |lo| + |hi|
    ensures t < |lo| ==> Read(lo, hi, t) == lo[t]
    ensures t >= |lo| ==> Read(lo, hi, t) == hi[|lo| + |hi| - 1 - t]
  {
  }

  lemma DifferentParts(lo: seq<int>, hi: seq<int>, t: int, r: int)
    requires Injective(lo + hi) && 0 <= t < |lo| && 0 <= r < |hi|
    ensures lo[t] != hi[r]
  {
    assert (lo + hi)[t] == lo[t] && (lo + hi)[|lo| + r] == hi[r];
  }

  lemma ListedPair(b: seq<byte>, vs: seq<int>, up: bool, x: int, y: int)
    requires Listed(b, vs, up) && 0 <= x < y < |vs|
    ensures 0 <= vs[x] < |b| && 0 <= vs[y] < |b| && vs[x] != vs[y]
    ensures if up then Cmp(b, vs[x], vs[y], |b|) <= 0 else Cmp(b, vs[x], vs[y], |b|) >= 0
  {
    assert Before(b, vs[x], vs[y], up);
  }

  /** A filled bucket (u, c) holds distinct rotations of its key, in order. */
  lemma FilledBucket(b: seq<byte>, c: byte, p0: seq<int>, p: seq<int>, done: seq<bool>, cs: seq<int>, ce: seq<int>, ls: Lists,
                     u: byte, x: int, y: int)
    requires ScanState(b, c, p0, p, done, cs, ce, ls) && !done[u] && cs[u] == ce[u] + 1
    requires Start(b, 256 * u + c) <= x <= y < Start(b, 256 * u + c + 1)
    ensures 0 <= x < |p| && 0 <= p[x] < |b| && Key(b, p[x]) == 256 * u + c
    ensures y < |p| && 0 <= p[y] < |b|
    ensures x < y ==> p[x] != p[y] && Cmp(b, p[x], p[y], |b|) <= 0
  {
    hide *;
    FilledRow(b, c, p0, p, done, cs, ce, ls, u, x);
    FilledRow(b, c, p0, p, done, cs, ce, ls, u, y);
    ReadLists(b, c, ls, u, x - Start(b, 256 * u + c), y - Start(b, 256 * u + c));
  }

  lemma StateLists(b: seq<byte>, c: byte, p0: seq<int>, p: seq<int>, done: seq<bool>, cs: seq<int>, ce: seq<int>, ls: Lists)
    requires ScanState(b, c, p0, p, done, cs, ce, ls)
    ensures Growing(b, c, ls) && |done| == |cs| == |ce| == 256
  {
  }

  lemma FilledRow(b: seq<byte>, c: byte, p0: seq<int>, p: seq<int>, done: seq<bool>, cs: seq<int>, ce: seq<int>, ls: Lists,
                  u: byte, x: int)
    requires ScanState(b, c, p0, p, done, cs, ce, ls) && !done[u] && cs[u] == ce[u] + 1
    requires Start(b, 256 * u + c) <= x < Start(b, 256 * u + c + 1)
    ensures Growing(b, c, ls)
    ensures 0 <= x - Start(b, 256 * u + c) < |Lows(b, c, ls, u)| + |Highs(b, c, ls, u)| && 0 <= x < |p|
    ensures p[x] == Read(Lows(b, c, ls, u), Highs(b, c, ls, u), x - Start(b, 256 * u + c))
  {
    StateLists(b, c, p0, p, done, cs, ce, ls);
    hide *;
    BucketState(b, c, p0, p, done, cs, ce, ls, u);
    ReceivedRow(b, 256 * u + c, p0, p, cs[u], ce[u], Lows(b, c, ls, u), Highs(b, c, ls, u), x);
  }

  lemma ReadLists(b: seq<byte>, c: byte, ls: Lists, u: byte, t: int, r: int)
    requires Growing(b, c, ls) && 0 <= t <= r < |Lows(b, c, ls, u)| + |Highs(b, c, ls, u)|
    ensures var v, w := Read(Lows(b, c, ls, u), Highs(b, c, ls, u), t), Read(Lows(b, c, ls, u), Highs(b, c, ls, u), r);
            && 0 <= v < |b| && 0 <= w < |b| && Key(b, v) == 256 * u + c
            && (t < r ==> v != w && Cmp(b, v, w, |b|) <= 0)
  {
    hide Cmp, ConstCmp, Sel, Read, Key;
    ListedPrefix(b, ls.a, ls.ma, c, true);
    ListedPrefix(b, ls.h, ls.mh, c, false);
    ReadInOrder(b, c, u, ls.a[..ls.ma], ls.h[..ls.mh], t, r);
  }

  /** In a block of one byte only, the scan moves nothing. */
  lemma NothingToScan(b: seq<byte>, c: byte, p0: seq<int>, p: seq<int>, done: seq<bool>, cs: seq<int>, ce: seq<int>, ls: Lists)
    requires ScanState(b, c, p0, p, done, cs, ce, ls) && Constant(b, c)
    ensures p == p0 && cs[c] == 0 && ce[c] == |b| - 1
  {
    Limits(b, c, p0, p, done, cs, ce, ls);
    if |ls.a| > 0 { AllConst(b, ls.a[0], ls.a[0], c, |b|); assert false; }
    if |ls.h| > 0 { AllConst(b, ls.h[0], ls.h[0], c, |b|); assert false; }
    BelowEnds(Keys(b), |b|, 256 * c, 256 * (c + 1));
    BucketState(b, c, p0, p, done, cs, ce, ls, c);
  }

  /**
   * What a finished scan of big bucket c leaves behind: the rows are still a permutation, every open
   * small bucket (u, c) is in order, and no other row has changed.
   */
  lemma ScanEnd(b: seq<byte>, c: byte, p0: seq<int>, p: seq<int>, done: seq<bool>, cs: seq<int>, ce: seq<int>, ls: Lists)
    requires ScanState(b, c, p0, p, done, cs, ce, ls) && Finished(ls) && Complete(b, c, ls)
    ensures KeyPlaced(Keys(b), p)
    ensures forall u: byte :: !done[u] ==> BucketSorted(b, p, 256 * u + c)
    ensures forall x :: 0 <= x < |b| && !Moved(b, c, done, p0[x]) ==> p[x] == p0[x]
    ensures cs[c] - 1 == ce[c] || (cs[c] == 0 && ce[c] == |b| - 1)
  {
    StateLists(b, c, p0, p, done, cs, ce, ls);
    if Constant(b, c) {
      NothingToScan(b, c, p0, p, done, cs, ce, ls);
      forall u: byte | !done[u] ensures BucketSorted(b, p, 256 * u + c) {
        forall x, y | Start(b, 256 * u + c) <= x < y < Start(b, 256 * u + c + 1) ensures Cmp(b, p[x], p[y], |b|) <= 0 {
          AllConst(b, p[x], p[y], c, |b|);
        }
      }
    } else {
      forall u: byte | !done[u] ensures cs[u] == ce[u] + 1 {
        Closed(b, c, ls, u);
        BucketState(b, c, p0, p, done, cs, ce, ls, u);
      }
      ScanFilled(b, c, p0, p, done, cs, ce, ls);
    }
  }

  lemma ScanFilled(b: seq<byte>, c: byte, p0: seq<int>, p: seq<int>, done: seq<bool>, cs: seq<int>, ce: seq<int>, ls: Lists)
    requires ScanState(b, c, p0, p, done, cs, ce, ls)
    requires forall u: byte :: !done[u] ==> cs[u] == ce[u] + 1
    ensures KeyPlaced(Keys(b), p)
    ensures forall u: byte :: !done[u] ==> BucketSorted(b, p, 256 * u + c)
  {
    hide Start, Cmp, ConstCmp, Received, Growing, Lows, Highs, HeadsPlaced, Key;
    forall x | 0 <= x < |b|
      ensures 0 <= p[x] < |b| && Key(b, p[x]) == Key(b, p0[x])
    {
      ScannedRow(b, c, p0, p, done, cs, ce, ls, x);
    }
    forall x, y | 0 <= x < y < |b| ensures p[x] != p[y] {
      ScannedRows(b, c, p0, p, done, cs, ce, ls, x, y);
    }
    assert Injective(p);
    KeyPlacedSame(b, p0, p);
    forall u: byte | !done[u] ensures BucketSorted(b, p, 256 * u + c) {
      forall x, y | Start(b, 256 * u + c) <= x < y < Start(b, 256 * u + c + 1) ensures Cmp(b, p[x], p[y], |b|) <= 0 {
        FilledBucket(b, c, p0, p, done, cs, ce, ls, u, x, y);
      }
    }
  }

  lemma KeyPlacedSame(b: seq<byte>, p0: seq<int>, p: seq<int>)
    requires KeyPlaced(Keys(b), p0) && IsPerm(p, |b|)
    requires forall x :: 0 <= x < |b| ==> Key(b, p[x]) == Key(b, p0[x])
    ensures KeyPlaced(Keys(b), p)
  {
    forall x | 0 <= x < |b|
      ensures Below(Keys(b), |b|, Keys(b)[p[x]]) <= x < Below(Keys(b), |b|, Keys(b)[p[x]] + 1)
    {
      RowBucket(b, p0, x);
    }
  }

  /** A scanned row keeps its key. */
  lemma ScannedRow(b: seq<byte>, c: byte, p0: seq<int>, p: seq<int>, done: seq<bool>, cs: seq<int>, ce: seq<int>, ls: Lists, x: int)
    requires ScanState(b, c, p0, p, done, cs, ce, ls) && 0 <= x < |b|
    requires forall u: byte :: !done[u] ==> cs[u] == ce[u] + 1
    ensures 0 <= p0[x] < |b| && 0 <= p[x] < |b| && Key(b, p[x]) == Key(b, p0[x])
  {
    StateLists(b, c, p0, p, done, cs, ce, ls);
    StateRow(b, c, p0, p, done, cs, ce, ls, x);
    hide *;
    if Moved(b, c, done, p0[x]) {
      FilledBucket(b, c, p0, p, done, cs, ce, ls, b[p0[x]], x, x);
    }
  }

  lemma StateRow(b: seq<byte>, c: byte, p0: seq<int>, p: seq<int>, done: seq<bool>, cs: seq<int>, ce: seq<int>, ls: Lists, x: int)
    requires ScanState(b, c, p0, p, done, cs, ce, ls) && 0 <= x < |b|
    ensures |p| == |p0| == |b| && |done| == 256 && KeyPlaced(Keys(b), p0)
    ensures 0 <= p0[x] < |b| && Start(b, Key(b, p0[x])) <= x < Start(b, Key(b, p0[x]) + 1)
    ensures !Moved(b, c, done, p0[x]) ==> p[x] == p0[x]
    ensures Moved(b, c, done, p0[x]) ==> !done[b[p0[x]]] && Key(b, p0[x]) == 256 * b[p0[x]] + c
  {
    RowBucket(b, p0, x);
    hide Start, Received, Growing, Lows, Highs, HeadsPlaced, Keys;
  }

  lemma SameKeyMoved(b: seq<byte>, c: byte, done: seq<bool>, v: int, w: int)
    requires 0 <= v < |b| && 0 <= w < |b| && |done| == 256 && Key(b, v) == Key(b, w)
    ensures Moved(b, c, done, v) == Moved(b, c, done, w) && b[v] == b[w]
  {
  }

  lemma ScannedRows(b: seq<byte>, c: byte, p0: seq<int>, p: seq<int>, done: seq<bool>, cs: seq<int>, ce: seq<int>, ls: Lists,
                    x: int, y: int)
    requires ScanState(b, c, p0, p, done, cs, ce, ls) && 0 <= x < y < |b|
    requires forall u: byte :: !done[u] ==> cs[u] == ce[u] + 1
    ensures p[x] != p[y]
  {
    StateLists(b, c, p0, p, done, cs, ce, ls);
    StateRow(b, c, p0, p, done, cs, ce, ls, x);
    StateRow(b, c, p0, p, done, cs, ce, ls, y);
    assert p0[x] != p0[y];
    hide *;
    ScannedRow(b, c, p0, p, done, cs, ce, ls, x);
    ScannedRow(b, c, p0, p, done, cs, ce, ls, y);
    if p[x] == p[y] {
      SameKeyMoved(b, c, done, p0[x], p0[y]);
      if Moved(b, c, done, p0[x]) {
        FilledBucket(b, c, p0, p, done, cs, ce, ls, b[p0[x]], x, y);
      }
      assert false;
    }
  }
}
