/** Codes of least cost: joining the two lightest nodes loses nothing, and what that makes of the tree as a whole. */
module OptimalCodes {
  import opened Bits
  import opened HuffmanTree

  // ---------- sums ----------

  ghost function Total(f: seq<int>): int {
    if f == [] then 0 else Total(f[..|f| - 1]) + f[|f| - 1]
  }

  lemma {:induction false} TotalUpdate(f: seq<int>, i: int, v: int)
    requires 0 <= i < |f|
    ensures Total(f[i := v]) == Total(f) - f[i] + v
  {
    var m := |f| - 1;
    if i < m {
      assert f[i := v][..m] == f[..m][i := v];
      TotalUpdate(f[..m], i, v);
    } else {
      assert f[i := v][..m] == f[..m];
    }
  }

  lemma {:induction false} TotalZero(f: seq<int>)
    requires forall i :: 0 <= i < |f| ==> f[i] == 0
    ensures Total(f) == 0
  {
    if f != [] {
      TotalZero(f[..|f| - 1]);
    }
  }

  /** A sum of terms that are not negative is at least any one of them. */
  lemma {:induction false} TotalAtLeast(f: seq<int>, i: int)
    requires forall i :: 0 <= i < |f| ==> f[i] >= 0
    ensures Total(f) >= 0 && (0 <= i < |f| ==> Total(f) >= f[i])
  {
    if f != [] {
      TotalAtLeast(f[..|f| - 1], i);
    }
  }

  // ---------- codes for a part of the nodes ----------

  /** The code space taken by the open nodes. */
  ghost function Shares(open: seq<bool>, len: seq<int>, t: nat): seq<int>
    requires |len| == |open|
  {
    seq(|open|, i requires 0 <= i < |open| => if open[i] && 0 <= len[i] <= t then Pow2(t - len[i]) else 0)
  }

  /** What the open nodes cost. */
  ghost function Costs(open: seq<bool>, ws: seq<int>, len: seq<int>): seq<int>
    requires |ws| == |len| == |open|
  {
    seq(|open|, i requires 0 <= i < |open| => if open[i] then ws[i] * len[i] else 0)
  }

  /** Lengths a prefix code for the open nodes can have. */
  ghost predicate Fits(open: seq<bool>, len: seq<int>, t: nat) {
    && |len| == |open|
    && (forall i :: 0 <= i < |open| && open[i] ==> 0 <= len[i] <= t)
    && Total(Shares(open, len, t)) <= Pow2(t)
  }

  /** No leaf below an open node lies deeper than most. */
  ghost predicate Reach(open: seq<bool>, hs: seq<int>, len: seq<int>, most: int)
    requires |hs| == |len| == |open|
  {
    forall i :: 0 <= i < |open| && open[i] ==> len[i] + hs[i] <= most
  }

  /** Cost c' with depth d' is at least as good as cost c with depth d. */
  ghost predicate AsGood(c: int, d: bool, c': int, d': bool) {
    c' < c || (c' == c && (d ==> d'))
  }

  /** Lighter, or as light and no higher. */
  ghost predicate Before(ws: seq<int>, hs: seq<int>, i: int, j: int)
    requires 0 <= i < |ws| == |hs| && 0 <= j < |ws|
  {
    ws[i] < ws[j] || (ws[i] == ws[j] && hs[i] <= hs[j])
  }

  ghost function Swapped(len: seq<int>, i: int, j: int): seq<int>
    requires 0 <= i < |len| && 0 <= j < |len|
  {
    len[i := len[j]][j := len[i]]
  }

  lemma SwapFits(open: seq<bool>, len: seq<int>, t: nat, i: int, j: int)
    requires Fits(open, len, t) && 0 <= i < |open| && 0 <= j < |open| && open[i] && open[j]
    ensures Fits(open, Swapped(len, i, j), t)
  {
    hide Pow2, Total;
    var s := Shares(open, len, t);
    TotalUpdate(s, i, s[j]);
    TotalUpdate(s[i := s[j]], j, s[i]);
    assert Shares(open, Swapped(len, i, j), t) == s[i := s[j]][j := s[i]];
  }

  lemma SwapGain(a: int, b: int, x: int, y: int)
    requires a <= b && x <= y
    ensures a * x + b * y - a * y - b * x >= 0
    ensures a < b && x < y ==> a * x + b * y - a * y - b * x > 0
  {
    assert a * x + b * y - a * y - b * x == (b - a) * (y - x);
  }

  /** A node that comes before another one may as well have the longer code of the two. */
  lemma SwapAsGood(open: seq<bool>, ws: seq<int>, hs: seq<int>, len: seq<int>, i: int, j: int, most: int)
    requires |ws| == |hs| == |len| == |open| && 0 <= i < |open| && 0 <= j < |open| && open[i] && open[j]
    requires Before(ws, hs, i, j) && len[i] <= len[j]
    ensures AsGood(Total(Costs(open, ws, len)), Reach(open, hs, len, most),
                   Total(Costs(open, ws, Swapped(len, i, j))), Reach(open, hs, Swapped(len, i, j), most))
  {
    hide Total;
    var s, len' := Costs(open, ws, len), Swapped(len, i, j);
    if i == j || len[i] == len[j] {
      assert len' == len;
    } else {
      TotalUpdate(s, i, ws[i] * len[j]);
      TotalUpdate(s[i := ws[i] * len[j]], j, ws[j] * len[i]);
      assert Costs(open, ws, len') == s[i := ws[i] * len[j]][j := ws[j] * len[i]];
      SwapGain(ws[i], ws[j], len[i], len[j]);
    }
  }

  // ---------- the two longest codes ----------

  lemma {:induction false} TotalScale(s: seq<int>, q: seq<int>, u: int)
    requires |s| == |q| && forall i :: 0 <= i < |s| ==> s[i] == q[i] * u
    ensures Total(s) == Total(q) * u
  {
    if s != [] {
      var m := |s| - 1;
      TotalScale(s[..m], q[..m], u);
      assert (Total(q[..m]) + q[m]) * u == Total(q[..m]) * u + q[m] * u;
    }
  }

  /** With no length above d, the space taken is a multiple of that of one code of length d. */
  lemma SharesScale(open: seq<bool>, len: seq<int>, t: nat, d: nat)
    requires |len| == |open| && d <= t && forall i :: 0 <= i < |open| && open[i] ==> 0 <= len[i] <= d
    ensures Total(Shares(open, len, t)) == Total(Shares(open, len, d)) * Pow2(t - d)
  {
    var s, q := Shares(open, len, t), Shares(open, len, d);
    forall i | 0 <= i < |s| ensures s[i] == q[i] * Pow2(t - d) {
      if open[i] { Pow2Add(d - len[i], t - d); }
    }
    hide Pow2, Shares;
    TotalScale(s, q, Pow2(t - d));
  }

  lemma RoomForOne(k: int, u: int, p: int, x: int)
    requires u >= 1 && x >= 1 && k * u + x <= p * u
    ensures (k + 1) * u <= p * u
  {
    assert p * u - k * u == (p - k) * u;
    assert p - k <= 0 ==> (p - k) * u <= 0;
    assert p * u - (k + 1) * u == (p - k - 1) * u;
  }

  /** Taking out one node takes out its share. */
  lemma ShareOut(open: seq<bool>, len: seq<int>, t: nat, p: int, d: int)
    requires |len| == |open| && 0 <= p < |open| && open[p] && 0 <= d <= t
    ensures Total(Shares(open, len[p := d], t)) == Total(Shares(open[p := false], len, t)) + Pow2(t - d)
  {
    hide Total, Pow2;
    var s := Shares(open, len[p := d], t);
    assert Shares(open[p := false], len, t) == s[p := 0];
    TotalUpdate(s, p, 0);
  }

  /** The longest code can be cut down to the length of the second longest. */
  lemma Shorten(open: seq<bool>, len: seq<int>, t: nat, p: int, d: nat)
    requires Fits(open, len, t) && 0 <= p < |open| && open[p] && d <= len[p]
    requires forall i :: 0 <= i < |open| && open[i] && i != p ==> len[i] <= d
    ensures Fits(open, len[p := d], t)
  {
    hide Total, Shares, Pow2;
    var rest := open[p := false];
    assert len[p := len[p]] == len && len[p] <= t;
    SharesScale(rest, len, t, d);
    Pow2Add(d, t - d);
    ShareOut(open, len, t, p, len[p]);
    ShareOut(open, len, t, p, d);
    RoomForOne(Total(Shares(rest, len, d)), Pow2(t - d), Pow2(d), Pow2(t - len[p]));
    assert (Total(Shares(rest, len, d)) + 1) * Pow2(t - d) == Total(Shares(rest, len, d)) * Pow2(t - d) + Pow2(t - d);
  }

  lemma ShortenAsGood(open: seq<bool>, ws: seq<int>, hs: seq<int>, len: seq<int>, p: int, d: int, most: int)
    requires |ws| == |hs| == |len| == |open| && 0 <= p < |open| && open[p] && d <= len[p] && ws[p] >= 0
    ensures AsGood(Total(Costs(open, ws, len)), Reach(open, hs, len, most),
                   Total(Costs(open, ws, len[p := d])), Reach(open, hs, len[p := d], most))
  {
    hide Total;
    var s := Costs(open, ws, len);
    TotalUpdate(s, p, ws[p] * d);
    assert Costs(open, ws, len[p := d]) == s[p := ws[p] * d];
    SwapGain(0, ws[p], d, len[p]);
  }

  /** An open node with the longest code of all but e. */
  lemma Longest(open: seq<bool>, len: seq<int>, e: int, w: int) returns (p: int)
    requires |len| == |open| && 0 <= w < |open| && open[w] && w != e
    ensures 0 <= p < |open| && open[p] && p != e
    ensures forall i :: 0 <= i < |open| && open[i] && i != e ==> len[i] <= len[p]
  {
    p := w;
    for i := 0 to |open|
      invariant 0 <= p < |open| && open[p] && p != e
      invariant forall x :: 0 <= x < i && open[x] && x != e ==> len[x] <= len[p]
    {
      if open[i] && i != e && len[i] > len[p] { p := i; }
    }
  }

  // ---------- joining ----------

  /** a comes before every open node, and b before every other one. */
  ghost predicate Least2(open: seq<bool>, ws: seq<int>, hs: seq<int>, a: int, b: int) {
    && |ws| == |hs| == |open| && 0 <= a < |open| && 0 <= b < |open| && a != b && open[a] && open[b]
    && (forall v :: 0 <= v < |open| && open[v] ==> Before(ws, hs, a, v))
    && (forall v :: 0 <= v < |open| && open[v] && v != a ==> Before(ws, hs, b, v))
  }

  /** The two least nodes may as well have the longest codes, of the same length. */
  lemma Deepest(open: seq<bool>, ws: seq<int>, hs: seq<int>, len: seq<int>, t: nat, a: int, b: int, most: int)
    returns (len': seq<int>)
    requires Fits(open, len, t) && Least2(open, ws, hs, a, b) && forall v :: 0 <= v < |open| && open[v] ==> ws[v] >= 0
    ensures Fits(open, len', t) && |len'| == |open| && len'[a] == len'[b]
    ensures AsGood(Total(Costs(open, ws, len)), Reach(open, hs, len, most),
                   Total(Costs(open, ws, len')), Reach(open, hs, len', most))
  {
    hide Costs, Reach, Total, Pow2, Shares, Before;
    var p := Longest(open, len, -1, a);
    var q := Longest(open, len, p, if p == a then b else a);
    var d := len[q];
    Shorten(open, len, t, p, d);
    ShortenAsGood(open, ws, hs, len, p, d, most);
    var l1 := len[p := d];
    SwapFits(open, l1, t, a, p);
    SwapAsGood(open, ws, hs, l1, a, p, most);
    var l2 := Swapped(l1, a, p);
    var r := if q == a then p else q;
    SwapFits(open, l2, t, b, r);
    SwapAsGood(open, ws, hs, l2, b, r, most);
    len' := Swapped(l2, b, r);
  }

  /** a and b are closed, and c is open in their place. */
  ghost function Joining(open: seq<bool>, a: int, b: int, c: int): (r: seq<bool>)
    requires 0 <= a < |open| && 0 <= b < |open| && 0 <= c < |open|
    ensures |r| == |open|
  {
    open[a := false][b := false][c := true]
  }

  lemma CostOut(open: seq<bool>, ws: seq<int>, len: seq<int>, p: int)
    requires |ws| == |len| == |open| && 0 <= p < |open| && open[p]
    ensures Total(Costs(open, ws, len)) == Total(Costs(open[p := false], ws, len)) + ws[p] * len[p]
  {
    hide Total;
    var s := Costs(open, ws, len);
    assert Costs(open[p := false], ws, len) == s[p := 0];
    TotalUpdate(s, p, 0);
  }

  /** Two codes one bit longer than that of the node above them cost its weight. */
  lemma JoinCost(open: seq<bool>, ws: seq<int>, len: seq<int>, a: int, b: int, c: int)
    requires |ws| == |len| == |open| && 0 <= a < |open| && 0 <= b < |open| && 0 <= c < |open| && a != b
    requires open[a] && open[b] && !open[c] && ws[c] == ws[a] + ws[b] && len[a] == len[b]
    ensures Total(Costs(open, ws, len)) == Total(Costs(Joining(open, a, b, c), ws, len[c := len[a] - 1])) + ws[c]
  {
    hide Total;
    var rest, d := open[a := false][b := false], len[a];
    CostOut(open, ws, len, a);
    CostOut(open[a := false], ws, len, b);
    CostOut(Joining(open, a, b, c), ws, len[c := d - 1], c);
    assert Joining(open, a, b, c)[c := false] == rest;
    assert Costs(rest, ws, len[c := d - 1]) == Costs(rest, ws, len);
    assert ws[a] * d + ws[b] * d == (ws[a] + ws[b]) * (d - 1) + (ws[a] + ws[b]);
  }

  lemma JoinFits(open: seq<bool>, len: seq<int>, t: nat, a: int, b: int, c: int)
    requires Fits(open, len, t) && 0 <= a < |open| && 0 <= b < |open| && 0 <= c < |open| && a != b
    requires open[a] && open[b] && !open[c] && len[a] == len[b]
    ensures len[a] >= 1 && Fits(Joining(open, a, b, c), len[c := len[a] - 1], t)
  {
    hide Total, Pow2;
    var rest, d := open[a := false][b := false], len[a];
    assert len[a := d] == len && len[b := d] == len;
    ShareOut(open, len, t, a, d);
    ShareOut(open[a := false], len, t, b, d);
    TotalAtLeast(Shares(rest, len, t), 0);
    TwoShares(t, d);
    var open', len' := Joining(open, a, b, c), len[c := d - 1];
    ShareOut(open', len', t, c, d - 1);
    assert open'[c := false] == rest && len'[c := d - 1] == len';
    assert Shares(rest, len', t) == Shares(rest, len, t);
  }

  lemma TwoShares(t: nat, d: int)
    requires 0 <= d <= t
    ensures d == 0 ==> Pow2(t - d) == Pow2(t)
    ensures d >= 1 ==> 2 * Pow2(t - d) == Pow2(t - (d - 1))
  {
  }

  lemma JoinReach(open: seq<bool>, hs: seq<int>, len: seq<int>, a: int, b: int, c: int, most: int)
    requires |hs| == |len| == |open| && 0 <= a < |open| && 0 <= b < |open| && 0 <= c < |open| && a != b
    requires open[a] && open[b] && len[a] == len[b] && hs[c] == 1 + Max(hs[a], hs[b])
    ensures Reach(open, hs, len, most) ==> Reach(Joining(open, a, b, c), hs, len[c := len[a] - 1], most)
  {
    if Reach(open, hs, len, most) {
      assert len[a] + hs[a] <= most && len[b] + hs[b] <= most;
    }
  }

  /** Whatever the lengths, joining the two least nodes allows lengths that are at least as good. */
  lemma JoinAsGood(open: seq<bool>, ws: seq<int>, hs: seq<int>, len: seq<int>, t: nat, a: int, b: int, c: int, most: int)
    returns (len': seq<int>)
    requires Fits(open, len, t) && |len| == |open| && Least2(open, ws, hs, a, b) && forall v :: 0 <= v < |open| && open[v] ==> ws[v] >= 0
    requires 0 <= c < |open| && !open[c] && ws[c] == ws[a] + ws[b] && hs[c] == 1 + Max(hs[a], hs[b])
    ensures Fits(Joining(open, a, b, c), len', t) && |len'| == |open|
    ensures AsGood(Total(Costs(open, ws, len)), Reach(open, hs, len, most),
                   Total(Costs(Joining(open, a, b, c), ws, len')) + ws[c], Reach(Joining(open, a, b, c), hs, len', most))
  {
    hide Total, Costs, Pow2, Shares, Before, Fits, Reach;
    var l := Deepest(open, ws, hs, len, t, a, b, most);
    JoinFits(open, l, t, a, b, c);
    JoinCost(open, ws, l, a, b, c);
    JoinReach(open, hs, l, a, b, c, most);
    len' := l[c := l[a] - 1];
  }

  // ---------- the whole tree ----------

  /** The nodes that were roots when m was the last one. */
  ghost function OpenAt(par: seq<int>, m: int): (r: seq<bool>)
    ensures |r| == |par|
  {
    seq(|par|, v requires 0 <= v < |par| => 1 <= v <= m && (par[v] == -1 || par[v] > m))
  }

  ghost function Weights(w: seq<int>): seq<int> {
    seq(|w|, v requires 0 <= v < |w| => W(w[v]))
  }

  ghost function HeightsOf(w: seq<int>): seq<int> {
    seq(|w|, v requires 0 <= v < |w| => H(w[v]))
  }

  /** The nodes joined under m were the two least of the roots there were. */
  ghost predicate LeastPair(par: seq<int>, w: seq<int>, kids: seq<Kids>, m: int)
    requires 0 <= m < |par| == |w| == |kids|
  {
    var a, b := kids[m].a, kids[m].b;
    && 1 <= a < m && 1 <= b < m && a != b && w[a] <= w[b]
    && (forall v :: 1 <= v < m && v != a && (par[v] == -1 || par[v] >= m) ==> w[b] <= w[v])
    && W(w[m]) == W(w[a]) + W(w[b]) && H(w[m]) == 1 + Max(H(w[a]), H(w[b]))
  }

  ghost predicate Greedy(par: seq<int>, w: seq<int>, kids: seq<Kids>, alpha: int, n: int) {
    && 1 <= alpha <= n < |par| == |w| == |kids| && (forall v :: 0 <= v <= n ==> w[v] >= 0)
    && forall m :: alpha < m <= n ==> LeastPair(par, w, kids, m)
  }

  /** One join further, the roots are those of the join. */
  lemma OpenNext(par: seq<int>, kids: seq<Kids>, alpha: int, n: int, m: int)
    requires Tree(par, kids, alpha, n) && par[n] == -1 && alpha <= m < n
    ensures var a, b := kids[m + 1].a, kids[m + 1].b;
      && 1 <= a <= m && 1 <= b <= m && a != b && OpenAt(par, m)[a] && OpenAt(par, m)[b] && !OpenAt(par, m)[m + 1]
      && OpenAt(par, m + 1) == Joining(OpenAt(par, m), a, b, m + 1)
  {
    assert Joined(par, kids, m + 1);
    var a, b := kids[m + 1].a, kids[m + 1].b;
    var open, open' := OpenAt(par, m), OpenAt(par, m + 1);
    assert m + 1 < n ==> IsKid(par, kids, alpha, n, m + 1);
    forall v | 0 <= v < |par| ensures open'[v] == Joining(open, a, b, m + 1)[v] {
      if 1 <= v <= m { assert par[v] == -1 || IsKid(par, kids, alpha, n, v); }
    }
  }

  lemma NextLeast(par: seq<int>, w: seq<int>, kids: seq<Kids>, alpha: int, n: int, m: int)
    requires Greedy(par, w, kids, alpha, n) && alpha <= m < n && 1 <= kids[m + 1].a <= m && 1 <= kids[m + 1].b <= m
    requires OpenAt(par, m)[kids[m + 1].a] && OpenAt(par, m)[kids[m + 1].b]
    ensures |w| == |par| && Least2(OpenAt(par, m), Weights(w), HeightsOf(w), kids[m + 1].a, kids[m + 1].b)
    ensures Weights(w)[m + 1] == Weights(w)[kids[m + 1].a] + Weights(w)[kids[m + 1].b]
    ensures HeightsOf(w)[m + 1] == 1 + Max(HeightsOf(w)[kids[m + 1].a], HeightsOf(w)[kids[m + 1].b])
  {
    assert LeastPair(par, w, kids, m + 1);
  }

  /** The depths of all nodes. */
  ghost function Depths(par: seq<int>, n: int): (r: seq<int>)
    requires n < |par| && forall v :: 1 <= v <= n ==> par[v] == -1 || v < par[v] <= n
    ensures |r| == |par|
  {
    seq(|par|, v requires 0 <= v < |par| => if 1 <= v <= n then Depth(par, n, v) else 0)
  }

  ghost function TreeCost(par: seq<int>, w: seq<int>, m: int, len: seq<int>): int
    requires |par| == |w| == |len|
  {
    Total(Costs(OpenAt(par, m), Weights(w), len))
  }

  /** From any stage of the building on, no lengths for its roots are better than their depths in the tree. */
  lemma {:induction false} DepthsBest(par: seq<int>, w: seq<int>, kids: seq<Kids>, alpha: int, n: int, m: int,
                                      len: seq<int>, t: nat, most: int)
    requires 1 <= alpha && n < |par| == |w| == |kids|
    requires Tree(par, kids, alpha, n) && par[n] == -1 && Greedy(par, w, kids, alpha, n) && alpha <= m <= n
    requires forall v :: 1 <= v <= n ==> par[v] == -1 || v < par[v] <= n
    requires Fits(OpenAt(par, m), len, t) && |len| == |par| && forall v :: 1 <= v <= n ==> W(w[v]) >= 0
    ensures AsGood(TreeCost(par, w, m, len), Reach(OpenAt(par, m), HeightsOf(w), len, most),
                   TreeCost(par, w, m, Depths(par, n)), H(w[n]) <= most)
    decreases n - m
  {
    hide Total, Costs, Pow2, Shares, Fits, Reach, Least2, Greedy, Tree;
    var dep := Depths(par, n);
    if m == n {
      RootBest(par, w, kids, alpha, n, len, t, most);
    } else {
      OpenNext(par, kids, alpha, n, m);
      var a, b := kids[m + 1].a, kids[m + 1].b;
      NextLeast(par, w, kids, alpha, n, m);
      var l := JoinAsGood(OpenAt(par, m), Weights(w), HeightsOf(w), len, t, a, b, m + 1, most);
      DepthsBest(par, w, kids, alpha, n, m + 1, l, t, most);
      KidDepths(par, kids, alpha, n, m + 1);
      JoinCost(OpenAt(par, m), Weights(w), dep, a, b, m + 1);
      assert dep[m + 1 := dep[a] - 1] == dep;
    }
  }

  lemma KidDepths(par: seq<int>, kids: seq<Kids>, alpha: int, n: int, m: int)
    requires Tree(par, kids, alpha, n) && alpha < m <= n
    requires forall v :: 1 <= v <= n ==> par[v] == -1 || v < par[v] <= n
    ensures 1 <= kids[m].a < m && 1 <= kids[m].b < m
    ensures Depths(par, n)[kids[m].a] == Depths(par, n)[kids[m].b] == 1 + Depths(par, n)[m]
  {
    assert Joined(par, kids, m);
  }

  lemma RootBest(par: seq<int>, w: seq<int>, kids: seq<Kids>, alpha: int, n: int, len: seq<int>, t: nat, most: int)
    requires Tree(par, kids, alpha, n) && par[n] == -1 && |w| == |par|
    requires forall v :: 1 <= v <= n ==> par[v] == -1 || v < par[v] <= n
    requires Fits(OpenAt(par, n), len, t) && |len| == |par| && forall v :: 1 <= v <= n ==> W(w[v]) >= 0
    ensures AsGood(TreeCost(par, w, n, len), Reach(OpenAt(par, n), HeightsOf(w), len, most),
                   TreeCost(par, w, n, Depths(par, n)), H(w[n]) <= most)
  {
    hide Total, Pow2, Shares;
    var open, ws, dep := OpenAt(par, n), Weights(w), Depths(par, n);
    assert open[n] && dep[n] == 0 && len[n] >= 0;
    forall v | 0 <= v < |open| && v != n ensures !open[v] {}
    CostOut(open, ws, len, n);
    CostOut(open, ws, dep, n);
    TotalZero(Costs(open[n := false], ws, len));
    TotalZero(Costs(open[n := false], ws, dep));
    assert ws[n] * len[n] >= 0;
    assert HeightsOf(w)[n] == H(w[n]);
  }

  // ---------- codes as the encoder sees them ----------

  /** Lengths a prefix code can have, none above t. */
  ghost predicate IsCode(len: seq<int>, t: nat) {
    (forall i :: 0 <= i < |len| ==> 0 <= len[i] <= t) && Kraft(len, t) <= Pow2(t)
  }

  ghost function Products(freq: seq<int>, len: seq<int>): seq<int>
    requires |freq| == |len|
  {
    seq(|freq|, i requires 0 <= i < |freq| => freq[i] * len[i])
  }

  /** The bits spent on symbols of these frequencies. */
  ghost function CodeCost(freq: seq<int>, len: seq<int>): int
    requires |freq| == |len|
  {
    Total(Products(freq, len))
  }

  /** No prefix code, however long its words, spends fewer bits. */
  ghost predicate Optimal(freq: seq<int>, len: seq<int>) {
    && |len| == |freq|
    && forall other: seq<int>, t: nat :: |other| == |freq| && IsCode(other, t) ==> CodeCost(freq, len) <= CodeCost(freq, other)
  }

  /** Some optimal code has no word longer than maxLen. */
  ghost predicate FitsIn(freq: seq<int>, maxLen: nat) {
    exists len :: Optimal(freq, len) && IsCode(len, maxLen)
  }

  // ---------- leaves ----------

  /** The weights of the leaves, without the heights. */
  ghost function LeafWeights(w: seq<int>, alpha: nat): (r: seq<int>)
    requires alpha < |w|
    ensures |r| == alpha
  {
    seq(alpha, i requires 0 <= i < alpha => W(w[i + 1]))
  }

  /** Lengths of the leaves spread over all nodes. */
  ghost function Spread(len: seq<int>, size: nat): (r: seq<int>)
    requires |len| < size
    ensures |r| == size
  {
    seq(size, v requires 0 <= v < size => if 1 <= v <= |len| then len[v - 1] else 0)
  }

  lemma {:induction false} TotalPadded(s: seq<int>, k: nat)
    requires k <= |s| && forall i :: k <= i < |s| ==> s[i] == 0
    ensures Total(s) == Total(s[..k])
    decreases |s|
  {
    if k < |s| {
      var m := |s| - 1;
      TotalPadded(s[..m], k);
      assert s[..m][..k] == s[..k];
    } else {
      assert s[..k] == s;
    }
  }

  lemma {:induction false} LeafShares(par: seq<int>, len: seq<int>, t: nat, k: nat)
    requires |len| < |par| && k <= |len| && (forall i :: 0 <= i < |len| ==> 0 <= len[i] <= t)
    requires forall v :: 1 <= v <= |len| ==> OpenAt(par, |len|)[v]
    ensures Total(Shares(OpenAt(par, |len|), Spread(len, |par|), t)[..k + 1]) == Kraft(len[..k], t)
    decreases k
  {
    var s := Shares(OpenAt(par, |len|), Spread(len, |par|), t);
    if k == 0 {
      assert s[..1][..0] == [] && s[0] == 0;
    } else {
      hide Pow2;
      LeafShares(par, len, t, k - 1);
      assert s[..k + 1][..k] == s[..k] && len[..k][..k - 1] == len[..k - 1];
    }
  }

  /** Leaf by leaf, the lengths take and cost the same spread over the nodes. */
  lemma LeafFits(par: seq<int>, alpha: int, len: seq<int>, t: nat)
    requires |len| == alpha < |par| && IsCode(len, t) && forall v :: 1 <= v <= alpha ==> OpenAt(par, alpha)[v]
    ensures Fits(OpenAt(par, alpha), Spread(len, |par|), t)
  {
    var s := Shares(OpenAt(par, alpha), Spread(len, |par|), t);
    LeafShares(par, len, t, alpha);
    assert len[..alpha] == len;
    hide Pow2, Kraft, Total;
    TotalPadded(s, alpha + 1);
  }

  lemma {:induction false} LeafCosts(par: seq<int>, w: seq<int>, alpha: int, len: seq<int>, nodes: seq<int>, k: nat)
    requires |len| == alpha < |par| == |w| == |nodes| && k <= alpha && forall v :: 1 <= v <= alpha ==> OpenAt(par, alpha)[v]
    requires forall v :: 1 <= v <= alpha ==> nodes[v] == len[v - 1]
    ensures Total(Costs(OpenAt(par, alpha), Weights(w), nodes)[..k + 1])
         == Total(Products(LeafWeights(w, alpha), len)[..k])
    decreases k
  {
    var s := Costs(OpenAt(par, alpha), Weights(w), nodes);
    var c := Products(LeafWeights(w, alpha), len);
    if k == 0 {
      assert s[..1][..0] == [] && s[0] == 0;
    } else {
      LeafCosts(par, w, alpha, len, nodes, k - 1);
      assert s[..k + 1][..k] == s[..k] && c[..k][..k - 1] == c[..k - 1];
      assert s[k] == W(w[k]) * len[k - 1] == c[k - 1];
    }
  }

  lemma LeafCost(par: seq<int>, w: seq<int>, alpha: int, len: seq<int>, nodes: seq<int>)
    requires |len| == alpha < |par| == |w| == |nodes| && forall v :: 1 <= v <= alpha ==> OpenAt(par, alpha)[v]
    requires forall v :: 1 <= v <= alpha ==> nodes[v] == len[v - 1]
    ensures TreeCost(par, w, alpha, nodes) == CodeCost(LeafWeights(w, alpha), len)
  {
    LeafCosts(par, w, alpha, len, nodes, alpha);
    var s := Costs(OpenAt(par, alpha), Weights(w), nodes);
    var c := Products(LeafWeights(w, alpha), len);
    assert c[..alpha] == c;
    hide Total;
    TotalPadded(s, alpha + 1);
  }

  // ---------- Huffman's theorem ----------

  ghost predicate GreedyTree(par: seq<int>, w: seq<int>, kids: seq<Kids>, alpha: int, n: int) {
    && 1 <= alpha < n < |par| == |w| == |kids| && Tree(par, kids, alpha, n) && par[n] == -1 && Greedy(par, w, kids, alpha, n)
    && (forall v :: 1 <= v <= n ==> par[v] == -1 || v < par[v] <= n)
    && forall v :: 1 <= v <= alpha ==> H(w[v]) == 0
  }

  /**
   * The leaf depths of a tree grown by joining the two least roots: no prefix code costs less, and one that costs
   * as little has a word as long as the tree is high.
   */
  lemma HuffmanBest(par: seq<int>, w: seq<int>, kids: seq<Kids>, alpha: int, n: int, len: seq<int>, other: seq<int>, t: nat, most: int)
    requires GreedyTree(par, w, kids, alpha, n) && |len| == |other| == alpha && IsCode(other, t)
    requires forall i :: 0 <= i < alpha ==> len[i] == Depth(par, n, i + 1)
    ensures CodeCost(LeafWeights(w, alpha), len) <= CodeCost(LeafWeights(w, alpha), other)
    ensures (CodeCost(LeafWeights(w, alpha), len) == CodeCost(LeafWeights(w, alpha), other)
             && forall i :: 0 <= i < alpha ==> other[i] <= most)
            ==> H(w[n]) <= most
  {
    var open, nodes := OpenAt(par, alpha), Spread(other, |par|);
    forall v | 1 <= v <= alpha ensures open[v] { assert par[v] == -1 || IsKid(par, kids, alpha, n, v); }
    hide Total, Costs, Shares, Pow2, Greedy, Tree, Kraft, CodeCost, TreeCost, LeafWeights, Fits;
    LeafFits(par, alpha, other, t);
    DepthsBest(par, w, kids, alpha, n, alpha, nodes, t, most);
    LeafCost(par, w, alpha, other, nodes);
    LeafCost(par, w, alpha, len, Depths(par, n));
  }

  /** In an optimal code, a symbol seen more often has no longer a word. */
  lemma OptimalOrder(freq: seq<int>, len: seq<int>, t: nat, i: int, j: int)
    requires Optimal(freq, len) && IsCode(len, t) && 0 <= i < |freq| && 0 <= j < |freq| && freq[i] > freq[j]
    ensures len[i] <= len[j]
  {
    var open, len' := seq(|len|, _ => true), Swapped(len, i, j);
    hide Total, Pow2, Kraft, Optimal;
    KraftShares(len, t);
    SwapFits(open, len, t, i, j);
    KraftShares(len', t);
    assert IsCode(len', t);
    var c := Products(freq, len);
    TotalUpdate(c, i, freq[i] * len[j]);
    TotalUpdate(c[i := freq[i] * len[j]], j, freq[j] * len[i]);
    if len[j] < len[i] {
      assert Products(freq, len') == c[i := freq[i] * len[j]][j := freq[j] * len[i]];
      SwapGain(freq[j], freq[i], len[j], len[i]);
      OptimalAt(freq, len, len', t);
    }
  }

  lemma OptimalAt(freq: seq<int>, len: seq<int>, other: seq<int>, t: nat)
    requires Optimal(freq, len) && |other| == |freq| && IsCode(other, t)
    ensures CodeCost(freq, len) <= CodeCost(freq, other)
  {
  }

  lemma {:induction false} KraftShares(len: seq<int>, t: nat)
    requires forall i :: 0 <= i < |len| ==> 0 <= len[i] <= t
    ensures Kraft(len, t) == Total(Shares(seq(|len|, _ => true), len, t))
  {
    var s := Shares(seq(|len|, _ => true), len, t);
    if len != [] {
      var m := |len| - 1;
      KraftShares(len[..m], t);
      assert Shares(seq(m, _ => true), len[..m], t) == s[..m];
    }
  }
}
