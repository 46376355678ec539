/** The trees the code-length builder grows: their Kraft sum, and how fast weight grows with height. */
module HuffmanTree {
  import opened Bits

  /** The two nodes joined under a node. */
  datatype Kids = Kids(a: int, b: int)

  /**
   * Nodes 1..n, of which 1..alpha are leaves and the others were made by joining two earlier nodes.  A node whose
   * parent is -1 is a root; every other node is one of its parent's two children.
   */
  ghost predicate Forest(par: seq<int>, kids: seq<Kids>, alpha: int, n: int) {
    && 1 <= alpha <= n < |par| && |kids| == |par|
    && (forall v :: 1 <= v <= n ==> par[v] == -1 || IsKid(par, kids, alpha, n, v))
    && (forall m :: alpha < m <= n ==> Joined(par, kids, m))
  }

  ghost predicate IsKid(par: seq<int>, kids: seq<Kids>, alpha: int, n: int, v: int)
    requires 0 <= v < |par| == |kids| && n < |par| && 1 <= alpha
  {
    v < par[v] <= n && alpha < par[v] && (v == kids[par[v]].a || v == kids[par[v]].b)
  }

  ghost predicate Joined(par: seq<int>, kids: seq<Kids>, m: int)
    requires 0 <= m < |par| == |kids|
  {
    && 1 <= kids[m].a < m && 1 <= kids[m].b < m && kids[m].a != kids[m].b
    && par[kids[m].a] == m && par[kids[m].b] == m
  }

  /** A forest of one tree; its root is the last node. */
  ghost predicate Tree(par: seq<int>, kids: seq<Kids>, alpha: int, n: int) {
    Forest(par, kids, alpha, n) && forall v :: 1 <= v < n ==> par[v] != -1
  }

  /** Steps from v up to the root. */
  function Depth(par: seq<int>, n: int, v: int): (d: nat)
    requires 1 <= v <= n < |par| && forall v :: 1 <= v <= n ==> par[v] == -1 || v < par[v] <= n
    decreases n - v
  {
    if par[v] == -1 then 0 else 1 + Depth(par, n, par[v])
  }

  lemma ForestParents(par: seq<int>, kids: seq<Kids>, alpha: int, n: int)
    requires Forest(par, kids, alpha, n)
    ensures n < |par| && forall v :: 1 <= v <= n ==> par[v] == -1 || v < par[v] <= n
  {
    forall v | 1 <= v <= n ensures par[v] == -1 || v < par[v] <= n {
      assert par[v] == -1 || IsKid(par, kids, alpha, n, v);
    }
  }

  // ---------- the Kraft sum ----------

  ghost predicate Shallow(par: seq<int>, n: int, alpha: int, t: int) {
    && 1 <= alpha <= n < |par| && (forall v :: 1 <= v <= n ==> par[v] == -1 || v < par[v] <= n)
    && forall v :: 1 <= v <= n ==> Depth(par, n, v) <= t
  }

  /** The share of v in a code of length t. */
  ghost function Share(par: seq<int>, n: int, t: int, v: int): int {
    if 1 <= v <= n < |par| && (forall v :: 1 <= v <= n ==> par[v] == -1 || v < par[v] <= n) && Depth(par, n, v) <= t
    then Pow2(t - Depth(par, n, v)) else 0
  }

  /** The shares of the nodes 1..k whose parents lie above m. */
  ghost function Frontier(par: seq<int>, n: int, t: int, m: int, k: nat): int
    requires k < |par|
  {
    if k == 0 then 0
    else Frontier(par, n, t, m, k - 1) + if par[k] == -1 || par[k] > m then Share(par, n, t, k) else 0
  }

  /** Joining under m: the nodes up to k with a parent above m - 1 are those above m and the children of m. */
  lemma {:induction false} FrontierSplit(par: seq<int>, kids: seq<Kids>, alpha: int, n: int, t: int, m: int, k: nat)
    requires Forest(par, kids, alpha, n) && alpha < m <= n && k <= n
    ensures Frontier(par, n, t, m - 1, k) == Frontier(par, n, t, m, k)
            + (if kids[m].a <= k then Share(par, n, t, kids[m].a) else 0)
            + (if kids[m].b <= k then Share(par, n, t, kids[m].b) else 0)
    decreases k
  {
    assert Joined(par, kids, m);
    if k > 0 {
      FrontierSplit(par, kids, alpha, n, t, m, k - 1);
      assert par[k] == -1 || IsKid(par, kids, alpha, n, k);
    }
  }

  lemma KidShares(par: seq<int>, kids: seq<Kids>, alpha: int, n: int, t: int, m: int)
    requires Forest(par, kids, alpha, n) && alpha < m <= n && Shallow(par, n, alpha, t)
    ensures Share(par, n, t, kids[m].a) + Share(par, n, t, kids[m].b) == Share(par, n, t, m)
  {
    assert Joined(par, kids, m);
    assert Depth(par, n, kids[m].a) == 1 + Depth(par, n, m);
    assert Depth(par, n, kids[m].b) == 1 + Depth(par, n, m);
    assert Depth(par, n, kids[m].a) <= t;
  }

  /** The frontier below any node still carries the whole sum. */
  lemma {:induction false} FrontierWhole(par: seq<int>, kids: seq<Kids>, alpha: int, n: int, t: int, m: int)
    requires Tree(par, kids, alpha, n) && alpha <= m <= n && Shallow(par, n, alpha, t)
    requires t >= 0 && par[n] == -1
    ensures Frontier(par, n, t, m, m) == Pow2(t)
    decreases n - m
  {
    if m == n {
      ForestParents(par, kids, alpha, n);
      assert Depth(par, n, n) == 0;
      FrontierNone(par, n, t, n, n - 1);
    } else {
      FrontierWhole(par, kids, alpha, n, t, m + 1);
      FrontierSplit(par, kids, alpha, n, t, m + 1, m);
      KidShares(par, kids, alpha, n, t, m + 1);
      assert Joined(par, kids, m + 1);
      if m + 1 < n { assert IsKid(par, kids, alpha, n, m + 1); }
    }
  }

  lemma {:induction false} FrontierNone(par: seq<int>, n: int, t: int, m: int, k: nat)
    requires k < |par| && forall v :: 1 <= v <= k ==> par[v] != -1 && par[v] <= m
    ensures Frontier(par, n, t, m, k) == 0
    decreases k
  {
    if k > 0 {
      FrontierNone(par, n, t, m, k - 1);
    }
  }

  /** Σ 2^(t - len). */
  function Kraft(len: seq<int>, t: int): (r: int)
    requires forall i :: 0 <= i < |len| ==> 0 <= len[i] <= t
    ensures r >= 0
  {
    if len == [] then 0 else Kraft(len[..|len| - 1], t) + Pow2(t - len[|len| - 1])
  }

  lemma {:induction false} LeafFrontier(par: seq<int>, kids: seq<Kids>, alpha: int, n: int, t: int, len: seq<int>)
    requires Tree(par, kids, alpha, n) && Shallow(par, n, alpha, t) && |len| <= alpha < n
    requires forall i :: 0 <= i < |len| ==> len[i] == Depth(par, n, i + 1)
    ensures forall i :: 0 <= i < |len| ==> 0 <= len[i] <= t
    ensures Kraft(len, t) == Frontier(par, n, t, alpha, |len|)
    decreases |len|
  {
    if len != [] {
      var k := |len| - 1;
      LeafFrontier(par, kids, alpha, n, t, len[..k]);
      assert IsKid(par, kids, alpha, n, k + 1);
    }
  }

  /** If all leaves are at depth t or less, so are the other nodes. */
  lemma {:induction false} ShallowLeaves(par: seq<int>, kids: seq<Kids>, alpha: int, n: int, t: int, v: int)
    requires Forest(par, kids, alpha, n) && 1 <= v <= n
    requires forall v :: 1 <= v <= n ==> par[v] == -1 || v < par[v] <= n
    requires forall v :: 1 <= v <= alpha ==> Depth(par, n, v) <= t
    ensures Depth(par, n, v) <= t
    decreases v
  {
    if v > alpha {
      assert Joined(par, kids, v);
      ShallowLeaves(par, kids, alpha, n, t, kids[v].a);
    }
  }

  /** The leaf depths of a tree form a complete code: their Kraft sum is exactly one. */
  lemma TreeKraft(par: seq<int>, kids: seq<Kids>, alpha: int, n: int, t: nat, len: seq<int>)
    requires Tree(par, kids, alpha, n) && |len| == alpha < n && par[n] == -1
    requires forall v :: 1 <= v <= n ==> par[v] == -1 || v < par[v] <= n
    requires forall i :: 0 <= i < alpha ==> len[i] == Depth(par, n, i + 1)
    requires forall i :: 0 <= i < alpha ==> len[i] <= t
    ensures forall i :: 0 <= i < alpha ==> 1 <= len[i] <= t
    ensures Kraft(len, t) == Pow2(t)
  {
    forall v | 1 <= v <= alpha ensures Depth(par, n, v) <= t && Depth(par, n, v) >= 1 {
      assert len[v - 1] == Depth(par, n, v - 1 + 1);
      assert par[v] != -1;
    }
    forall v | 1 <= v <= n ensures Depth(par, n, v) <= t {
      ShallowLeaves(par, kids, alpha, n, t, v);
    }
    assert len[0] == Depth(par, n, 0 + 1);
    LeafFrontier(par, kids, alpha, n, t, len);
    FrontierWhole(par, kids, alpha, n, t, alpha);
  }

  // ---------- weights ----------

  function Fib(n: nat): (r: nat) {
    if n < 2 then n else Fib(n - 1) + Fib(n - 2)
  }

  lemma {:induction false} FibMono(a: nat, b: nat)
    requires a <= b
    ensures Fib(a) <= Fib(b)
    decreases b
  {
    if a < b {
      FibMono(a, b - 1);
    }
  }

  lemma FibValues()
    ensures Fib(15) == 610 && Fib(35) == 9227465
  {
    FibSmall();
    assert Fib(20) == 6765 && Fib(21) == 10946 && Fib(22) == 17711 && Fib(23) == 28657 && Fib(24) == 46368;
    assert Fib(25) == 75025 && Fib(26) == 121393 && Fib(27) == 196418 && Fib(28) == 317811 && Fib(29) == 514229;
    assert Fib(30) == 832040 && Fib(31) == 1346269 && Fib(32) == 2178309 && Fib(33) == 3524578 && Fib(34) == 5702887;
  }

  lemma FibSmall()
    ensures Fib(15) == 610 && Fib(18) == 2584 && Fib(19) == 4181
  {
    assert Fib(2) == 1 && Fib(3) == 2 && Fib(4) == 3 && Fib(5) == 5 && Fib(6) == 8 && Fib(7) == 13 && Fib(8) == 21;
    assert Fib(9) == 34 && Fib(10) == 55 && Fib(11) == 89 && Fib(12) == 144 && Fib(13) == 233 && Fib(14) == 377;
    assert Fib(15) == 610 && Fib(16) == 987 && Fib(17) == 1597 && Fib(18) == 2584 && Fib(19) == 4181;
  }

  function W(packed: int): int { packed / 256 }

  function H(packed: int): int { packed % 256 }

  function Max(a: int, b: int): int { if a > b then a else b }

  /** ADDWEIGHTS: the sum of the weights, and one more than the larger height in the low byte. */
  function AddWeights(p: int, q: int): int {
    256 * (W(p) + W(q)) + 1 + Max(H(p), H(q))
  }

  /** The heights kept in the low bytes are real, and a node of height h weighs at least Fib(h + 2). */
  ghost predicate Heights(w: seq<int>, kids: seq<Kids>, alpha: int, n: int) {
    && 1 <= alpha <= n < |w| && |kids| >= |w|
    && (forall v :: 1 <= v <= n ==> w[v] >= 256 && W(w[v]) >= Fib(H(w[v]) + 2))
    && (forall v :: 1 <= v <= alpha ==> H(w[v]) == 0)
    && (forall m :: alpha < m <= n ==> Tall(w, kids, m))
  }

  ghost predicate Tall(w: seq<int>, kids: seq<Kids>, m: int)
    requires 0 <= m < |w| <= |kids|
  {
    && 1 <= kids[m].a < m && 1 <= kids[m].b < m
    && H(w[m]) == 1 + Max(H(w[kids[m].a]), H(w[kids[m].b]))
  }

  /** No root weighs less than a node already joined. */
  ghost predicate Monotone(par: seq<int>, w: seq<int>, n: int) {
    && n < |par| && n < |w|
    && forall u, v :: 1 <= u <= n && 1 <= v <= n && par[u] == -1 && par[v] != -1 ==> w[v] <= w[u]
  }

  /** The weights of the roots among 1..k. */
  ghost function RootSum(par: seq<int>, w: seq<int>, k: nat): int
    requires k < |par| && k < |w|
  {
    if k == 0 then 0 else RootSum(par, w, k - 1) + if par[k] == -1 then W(w[k]) else 0
  }

  lemma {:induction false} RootBound(par: seq<int>, w: seq<int>, k: nat, u: int, v: int)
    requires k < |par| && k < |w| && forall v :: 1 <= v <= k ==> w[v] >= 256
    requires 1 <= u <= k && 1 <= v <= k && par[u] == -1 && par[v] == -1
    ensures W(w[u]) + (if u == v then 0 else W(w[v])) <= RootSum(par, w, k)
    decreases k
  {
    if u < k && v < k {
      RootBound(par, w, k - 1, u, v);
    } else if u < k {
      RootBound(par, w, k - 1, u, u);
    } else if v < k {
      RootBound(par, w, k - 1, v, v);
    } else {
      RootSumPositive(par, w, k - 1);
    }
  }

  lemma {:induction false} RootSumPositive(par: seq<int>, w: seq<int>, k: nat)
    requires k < |par| && k < |w| && forall v :: 1 <= v <= k ==> w[v] >= 256
    ensures RootSum(par, w, k) >= 0
    decreases k
  {
    if k > 0 {
      RootSumPositive(par, w, k - 1);
    }
  }

  /** Giving root u a parent takes its weight out of the sum. */
  lemma {:induction false} RootSumDrop(par: seq<int>, w: seq<int>, k: nat, u: int, m: int)
    requires k < |par| && k < |w| && 1 <= u < |par| && par[u] == -1 && m != -1
    ensures RootSum(par[u := m], w, k) == RootSum(par, w, k) - if u <= k then W(w[u]) else 0
    decreases k
  {
    if k > 0 {
      RootSumDrop(par, w, k - 1, u, m);
    }
  }

  /** Entries above k do not matter to the sum. */
  lemma {:induction false} RootSumFrame(par: seq<int>, w: seq<int>, par': seq<int>, w': seq<int>, k: nat)
    requires k < |par| && k < |w| && k < |par'| && k < |w'|
    requires forall v :: 1 <= v <= k ==> par'[v] == par[v] && w'[v] == w[v]
    ensures RootSum(par', w', k) == RootSum(par, w, k)
    decreases k
  {
    if k > 0 {
      RootSumFrame(par, w, par', w', k - 1);
    }
  }

  /** A joined node weighs at least the sum of the next two heights: the Fibonacci step. */
  lemma JoinedWeight(par: seq<int>, w: seq<int>, kids: seq<Kids>, alpha: int, n: int, x: int, y: int)
    requires Forest(par, kids, alpha, n) && Heights(w, kids, alpha, n) && Monotone(par, w, n)
    requires 1 <= x <= n && 1 <= y <= n && par[x] == -1 && par[y] == -1 && H(w[x]) >= H(w[y])
    ensures W(w[x]) + W(w[y]) >= Fib(1 + H(w[x]) + 2)
  {
    assert W(w[x]) >= Fib(H(w[x]) + 2);
    if x <= alpha {
      assert Fib(2) == 1 && Fib(3) == 2;
    } else {
      assert Tall(w, kids, x) && Joined(par, kids, x);
      var z := if H(w[kids[x].a]) >= H(w[kids[x].b]) then kids[x].a else kids[x].b;
      assert par[z] != -1;
      assert w[z] <= w[y];
      assert W(w[z]) >= Fib(H(w[z]) + 2);
    }
  }

  /** Height is at least the length of any path below. */
  lemma {:induction false} DepthBelow(par: seq<int>, w: seq<int>, kids: seq<Kids>, alpha: int, n: int, v: int)
    requires Tree(par, kids, alpha, n) && Heights(w, kids, alpha, n) && 1 <= v <= n && par[n] == -1
    requires forall v :: 1 <= v <= n ==> par[v] == -1 || v < par[v] <= n
    ensures Depth(par, n, v) + H(w[v]) <= H(w[n])
    decreases n - v
  {
    if v < n {
      assert IsKid(par, kids, alpha, n, v);
      assert Tall(w, kids, par[v]);
      DepthBelow(par, w, kids, alpha, n, par[v]);
    }
  }
}
