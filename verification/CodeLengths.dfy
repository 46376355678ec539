/** Code lengths from symbol frequencies: Huffman's algorithm, rerun on flattened weights until no code is too long. */
module CodeLengths {
  import opened Bits
  import opened HuffmanHeap
  import opened HuffmanTree
  import opened OptimalCodes

  const MAX_ALPHA := 258
  /** Weights are kept in 32-bit words above an eight-bit height. */
  const WEIGHT_LIMIT := 0x80_0000

  /** What holds after every join. */
  ghost predicate Building(par: seq<int>, w: seq<int>, kids: seq<Kids>, alpha: int, n: int, total: int) {
    && |par| == |w|
    && Forest(par, kids, alpha, n)
    && Heights(w, kids, alpha, n)
    && Monotone(par, w, n)
    && RootSum(par, w, n) == total
    && Greedy(par, w, kids, alpha, n)
  }

  /** x and y are two roots no heavier than any other. */
  ghost predicate Lightest(par: seq<int>, w: seq<int>, n: int, x: int, y: int) {
    && n < |par| && n < |w| && 1 <= x <= n && 1 <= y <= n && x != y && par[x] == -1 && par[y] == -1 && w[x] <= w[y]
    && forall v :: 1 <= v <= n && par[v] == -1 && v != x ==> w[y] <= w[v]
  }

  lemma JoinForest(par: seq<int>, kids: seq<Kids>, alpha: int, n: int, x: int, y: int)
    requires Forest(par, kids, alpha, n) && n + 1 < |par| && 1 <= x <= n && 1 <= y <= n && x != y && par[x] == -1 && par[y] == -1
    ensures Forest(par[x := n + 1][y := n + 1][n + 1 := -1], kids[n + 1 := Kids(x, y)], alpha, n + 1)
  {
    var par', kids' := par[x := n + 1][y := n + 1][n + 1 := -1], kids[n + 1 := Kids(x, y)];
    forall v | 1 <= v <= n + 1 ensures par'[v] == -1 || IsKid(par', kids', alpha, n + 1, v) {
      if v <= n { assert par[v] == -1 || IsKid(par, kids, alpha, n, v); }
    }
    forall m | alpha < m <= n + 1 ensures Joined(par', kids', m) {
      if m <= n { assert Joined(par, kids, m); }
    }
  }

  /** The height always fits in its byte: it never carries into the weight. */
  lemma JoinFits(par: seq<int>, w: seq<int>, kids: seq<Kids>, alpha: int, n: int, total: int, x: int, y: int)
    requires Building(par, w, kids, alpha, n, total) && total < WEIGHT_LIMIT
    requires Lightest(par, w, n, x, y)
    ensures 1 + Max(H(w[x]), H(w[y])) < 256
    ensures H(AddWeights(w[x], w[y])) == 1 + Max(H(w[x]), H(w[y])) && W(AddWeights(w[x], w[y])) == W(w[x]) + W(w[y])
    ensures W(w[x]) + W(w[y]) >= Fib(1 + Max(H(w[x]), H(w[y])) + 2)
    ensures AddWeights(w[x], w[y]) < 0x8000_0000
  {
    RootBound(par, w, n, x, y);
    JoinRise(par, w, kids, alpha, n, total, x, y);
    assert w[x] >= 256 && w[y] >= 256;
    hide AddWeights, RootSum, Forest, Monotone, Heights, W, H, Max, Fib;
    HeightBound(W(w[x]) + W(w[y]), Max(H(w[x]), H(w[y])));
    AddParts(w[x], w[y]);
  }

  lemma JoinRise(par: seq<int>, w: seq<int>, kids: seq<Kids>, alpha: int, n: int, total: int, x: int, y: int)
    requires Building(par, w, kids, alpha, n, total) && Lightest(par, w, n, x, y)
    ensures 0 <= Max(H(w[x]), H(w[y])) && W(w[x]) + W(w[y]) >= Fib(1 + Max(H(w[x]), H(w[y])) + 2)
  {
    hide Forest, Monotone, Heights, RootSum, Fib;
    if H(w[x]) >= H(w[y]) {
      JoinedWeight(par, w, kids, alpha, n, x, y);
    } else {
      JoinedWeight(par, w, kids, alpha, n, y, x);
    }
  }

  lemma HeightBound(weight: int, h: nat)
    requires weight < WEIGHT_LIMIT && weight >= Fib(1 + h + 2)
    ensures 1 + h < 256
  {
    FibValues();
    hide Fib;
    if h + 3 >= 35 { FibMono(35, h + 3); }
  }

  lemma AddParts(p: int, q: int)
    requires p >= 0 && q >= 0 && 1 + Max(H(p), H(q)) < 256
    ensures H(AddWeights(p, q)) == 1 + Max(H(p), H(q)) && W(AddWeights(p, q)) == W(p) + W(q)
    ensures W(p) + W(q) < WEIGHT_LIMIT ==> AddWeights(p, q) < 0x8000_0000
  {
  }

  lemma JoinHeights(par: seq<int>, w: seq<int>, kids: seq<Kids>, alpha: int, n: int, total: int, x: int, y: int)
    requires Building(par, w, kids, alpha, n, total) && total < WEIGHT_LIMIT && n + 1 < |par|
    requires Lightest(par, w, n, x, y)
    ensures Heights(w[n + 1 := AddWeights(w[x], w[y])], kids[n + 1 := Kids(x, y)], alpha, n + 1)
  {
    JoinFits(par, w, kids, alpha, n, total, x, y);
    hide Fib, AddWeights, RootSum;
    var w', kids' := w[n + 1 := AddWeights(w[x], w[y])], kids[n + 1 := Kids(x, y)];
    forall m | alpha < m <= n + 1 ensures Tall(w', kids', m) {
      if m <= n { assert Tall(w, kids, m); }
    }
  }

  lemma JoinMonotone(par: seq<int>, w: seq<int>, n: int, x: int, y: int, total: int)
    requires Monotone(par, w, n) && n + 1 < |par| && n + 1 < |w| && Lightest(par, w, n, x, y)
    requires w[x] >= 256 && w[y] >= 256
    ensures Monotone(par[x := n + 1][y := n + 1][n + 1 := -1], w[n + 1 := AddWeights(w[x], w[y])], n + 1)
  {
    assert AddWeights(w[x], w[y]) >= w[y];
    hide AddWeights;
  }

  lemma JoinSum(par: seq<int>, w: seq<int>, n: int, x: int, y: int, sum: int)
    requires 0 <= n && n + 1 < |par| == |w| && 1 <= x <= n && 1 <= y <= n && x != y && par[x] == -1 && par[y] == -1
    requires W(sum) == W(w[x]) + W(w[y])
    ensures RootSum(par[x := n + 1][y := n + 1][n + 1 := -1], w[n + 1 := sum], n + 1) == RootSum(par, w, n)
  {
    RootSumDrop(par, w, n, x, n + 1);
    RootSumDrop(par[x := n + 1], w, n, y, n + 1);
    RootSumFrame(par[x := n + 1][y := n + 1], w, par[x := n + 1][y := n + 1][n + 1 := -1], w[n + 1 := sum], n);
  }

  /** The new node joins the two least roots, and the earlier joins stay as they were. */
  lemma JoinGreedy(par: seq<int>, w: seq<int>, kids: seq<Kids>, alpha: int, n: int, x: int, y: int, sum: int)
    requires Greedy(par, w, kids, alpha, n) && n + 1 < |par| && Lightest(par, w, n, x, y) && sum >= 0
    requires W(sum) == W(w[x]) + W(w[y]) && H(sum) == 1 + Max(H(w[x]), H(w[y]))
    requires forall v :: 1 <= v <= n ==> par[v] == -1 || v < par[v] <= n
    ensures Greedy(par[x := n + 1][y := n + 1][n + 1 := -1], w[n + 1 := sum], kids[n + 1 := Kids(x, y)], alpha, n + 1)
  {
    hide W, H, Max;
    var par', w', kids' := par[x := n + 1][y := n + 1][n + 1 := -1], w[n + 1 := sum], kids[n + 1 := Kids(x, y)];
    forall m | alpha < m <= n + 1 ensures LeastPair(par', w', kids', m) {
      if m <= n { assert LeastPair(par, w, kids, m); }
    }
  }

  lemma JoinTwo(par: seq<int>, w: seq<int>, kids: seq<Kids>, alpha: int, n: int, total: int, x: int, y: int)
    requires Building(par, w, kids, alpha, n, total) && total < WEIGHT_LIMIT && 0 <= n && n + 1 < |par|
    requires Lightest(par, w, n, x, y)
    ensures Building(par[x := n + 1][y := n + 1][n + 1 := -1], w[n + 1 := AddWeights(w[x], w[y])],
                     kids[n + 1 := Kids(x, y)], alpha, n + 1, total)
    ensures AddWeights(w[x], w[y]) > 0 && |kids| == |par|
  {
    JoinFits(par, w, kids, alpha, n, total, x, y);
    JoinForest(par, kids, alpha, n, x, y);
    JoinHeights(par, w, kids, alpha, n, total, x, y);
    JoinMonotone(par, w, n, x, y, total);
    JoinSum(par, w, n, x, y, AddWeights(w[x], w[y]));
    ForestParents(par, kids, alpha, n);
    JoinGreedy(par, w, kids, alpha, n, x, y, AddWeights(w[x], w[y]));
  }

  // ---------- building one tree ----------

  /** The heap holds exactly the roots. */
  ghost predicate RootsIn(par: seq<int>, n: int, pos: map<int, int>) {
    n < |par| && forall v :: v in pos <==> 1 <= v <= n && par[v] == -1
  }

  ghost predicate Leaves(w: seq<int>, alpha: int) {
    1 <= alpha < |w| && w[0] == 0 && forall v :: 1 <= v <= alpha ==> w[v] >= 256 && H(w[v]) == 0
  }

  ghost function LeafSum(w: seq<int>, k: nat): int
    requires k < |w|
  {
    if k == 0 then 0 else LeafSum(w, k - 1) + W(w[k])
  }

  lemma {:induction false} AllRoots(par: seq<int>, w: seq<int>, k: nat)
    requires k < |par| && k < |w| && forall v :: 1 <= v <= k ==> par[v] == -1
    ensures RootSum(par, w, k) == LeafSum(w, k)
    decreases k
  {
    if k > 0 {
      AllRoots(par, w, k - 1);
    }
  }

  lemma BuildStart(par: seq<int>, w: seq<int>, kids: seq<Kids>, alpha: int)
    requires |par| == |w| == |kids| && Leaves(w, alpha) && forall v :: 1 <= v <= alpha ==> par[v] == -1
    ensures Building(par, w, kids, alpha, alpha, LeafSum(w, alpha))
  {
    AllRoots(par, w, alpha);
    assert Fib(2) == 1;
  }

  /** All leaves go into the heap. */
  method FillHeap(heap: array<int>, weight: array<int>, parent: array<int>, alphaSize: int)
    returns (nHeap: int, ghost pos: map<int, int>)
    requires heap != weight && heap != parent && weight != parent
    requires heap.Length == MAX_ALPHA + 2 && weight.Length == parent.Length == 2 * MAX_ALPHA && 1 <= alphaSize <= MAX_ALPHA
    requires Leaves(weight[..], alphaSize)
    modifies heap, parent
    ensures nHeap == alphaSize && IsHeap(heap[..], weight[..], nHeap, pos) && RootsIn(parent[..], alphaSize, pos)
    ensures forall v :: 1 <= v <= alphaSize ==> parent[v] == -1
  {
    nHeap, pos := 0, map[];
    heap[0] := 0;
    parent[0] := -2;
    hide IsHeap;
    EmptyHeap(heap[..], weight[..]);
    for i := 1 to alphaSize + 1
      invariant nHeap == i - 1 && IsHeap(heap[..], weight[..], nHeap, pos)
      invariant forall v :: 1 <= v < i ==> parent[v] == -1
      invariant forall v :: v in pos <==> 1 <= v < i
    {
      parent[i] := -1;
      nHeap, pos := Insert(heap, weight, nHeap, i, pos);
    }
    assert nHeap < MAX_ALPHA + 2;  // assertion 2001
  }

  lemma EmptyHeap(h: seq<int>, w: seq<int>)
    requires |h| > 0 && |w| > 0 && h[0] == 0 && w[0] == 0
    ensures IsHeap(h, w, 0, map[])
  {
  }

  /** One round of the joining loop. */
  method JoinLightest(heap: array<int>, weight: array<int>, parent: array<int>, alphaSize: int, nHeap0: int, nNodes0: int,
                      ghost kids0: seq<Kids>, ghost pos0: map<int, int>, ghost total: int)
    returns (nHeap: int, nNodes: int, ghost kids: seq<Kids>, ghost pos: map<int, int>)
    requires heap != weight && heap != parent && weight != parent
    requires heap.Length == MAX_ALPHA + 2 && weight.Length == parent.Length == 2 * MAX_ALPHA
    requires 1 < nHeap0 <= MAX_ALPHA && 1 <= alphaSize <= nNodes0 < 2 * MAX_ALPHA - 1 && total < WEIGHT_LIMIT
    requires IsHeap(heap[..], weight[..], nHeap0, pos0) && RootsIn(parent[..], nNodes0, pos0)
    requires Building(parent[..], weight[..], kids0, alphaSize, nNodes0, total)
    modifies heap, weight, parent
    ensures nHeap == nHeap0 - 1 && nNodes == nNodes0 + 1
    ensures IsHeap(heap[..], weight[..], nHeap, pos) && RootsIn(parent[..], nNodes, pos)
    ensures Building(parent[..], weight[..], kids, alphaSize, nNodes, total)
    ensures forall v :: 0 <= v <= alphaSize ==> weight[v] == old(weight[v])
  {
    hide IsHeap, Building, AddWeights;
    ghost var par, w := parent[..], weight[..];
    var n1, n2;
    n1, nHeap, pos := ExtractMin(heap, weight, nHeap0, pos0);
    n2, nHeap, pos := ExtractMin(heap, weight, nHeap, pos);
    assert Lightest(par, w, nNodes0, n1, n2);
    nNodes := nNodes0 + 1;
    JoinTwo(par, w, kids0, alphaSize, nNodes0, total, n1, n2);
    parent[n1], parent[n2] := nNodes, nNodes;
    HeapGrows(heap[..], w, nHeap, pos, nNodes, AddWeights(w[n1], w[n2]));
    weight[nNodes] := AddWeights(weight[n1], weight[n2]);
    parent[nNodes] := -1;
    assert weight[..] == w[nNodes := AddWeights(w[n1], w[n2])];
    assert parent[..] == par[n1 := nNodes][n2 := nNodes][nNodes := -1];
    kids := kids0[nNodes := Kids(n1, n2)];
    nHeap, pos := Insert(heap, weight, nHeap, nNodes, pos);
  }

  /** Changing the weight of a node outside the heap keeps the heap. */
  lemma HeapGrows(h: seq<int>, w: seq<int>, n: int, pos: map<int, int>, node: int, v: int)
    requires IsHeap(h, w, n, pos) && 0 < node < |w| && node !in pos
    ensures IsHeap(h, w[node := v], n, pos)
  {
    var w' := w[node := v];
    forall i | 1 <= i <= n ensures Key(h, w', i) == Key(h, w, i) {
      assert h[i] in pos;
    }
  }

  method BuildTree(heap: array<int>, weight: array<int>, parent: array<int>, alphaSize: int)
    returns (nNodes: int, ghost kids: seq<Kids>)
    requires heap != weight && heap != parent && weight != parent
    requires heap.Length == MAX_ALPHA + 2 && weight.Length == parent.Length == 2 * MAX_ALPHA && 2 <= alphaSize <= MAX_ALPHA
    requires Leaves(weight[..], alphaSize) && LeafSum(weight[..], alphaSize) < WEIGHT_LIMIT
    modifies heap, weight, parent
    ensures alphaSize < nNodes < parent.Length && Tree(parent[..], kids, alphaSize, nNodes) && parent[nNodes] == -1
    ensures forall v :: 1 <= v <= nNodes ==> parent[v] == -1 || v < parent[v] <= nNodes
    ensures Building(parent[..], weight[..], kids, alphaSize, nNodes, old(LeafSum(weight[..], alphaSize)))
    ensures forall v :: 0 <= v <= alphaSize ==> weight[v] == old(weight[v])
  {
    ghost var total := LeafSum(weight[..], alphaSize);
    nNodes := alphaSize;
    var nHeap;
    ghost var pos;
    nHeap, pos := FillHeap(heap, weight, parent, alphaSize);
    kids := seq(parent.Length, _ => Kids(0, 0));
    BuildStart(parent[..], weight[..], kids, alphaSize);
    hide IsHeap, Building, RootsIn, LeafSum, Leaves;
    while nHeap > 1
      invariant 1 <= nHeap == 2 * alphaSize - nNodes && alphaSize <= nNodes
      invariant IsHeap(heap[..], weight[..], nHeap, pos) && RootsIn(parent[..], nNodes, pos)
      invariant Building(parent[..], weight[..], kids, alphaSize, nNodes, total)
      invariant forall v :: 0 <= v <= alphaSize ==> weight[v] == old(weight[v])
    {
      nHeap, nNodes, kids, pos := JoinLightest(heap, weight, parent, alphaSize, nHeap, nNodes, kids, pos, total);
    }
    assert nNodes < 2 * MAX_ALPHA;  // assertion 2002
    OneRoot(heap[..], parent[..], weight[..], kids, alphaSize, nNodes, pos, total);
  }

  lemma OneRoot(h: seq<int>, par: seq<int>, w: seq<int>, kids: seq<Kids>, alpha: int, n: int, pos: map<int, int>, total: int)
    requires IsHeap(h, w, 1, pos) && RootsIn(par, n, pos) && Building(par, w, kids, alpha, n, total)
    ensures Tree(par, kids, alpha, n) && par[n] == -1
    ensures forall v :: 1 <= v <= n ==> par[v] == -1 || v < par[v] <= n
  {
    ForestParents(par, kids, alpha, n);
    assert n in pos;
    forall s | s in pos ensures s == h[1] {
    }
  }

  // ---------- reading off the lengths ----------

  method LeafDepths(parent: array<int>, nNodes: int, alphaSize: int, maxLen: int, len: array<int>) returns (tooLong: bool)
    requires 1 <= alphaSize <= nNodes < parent.Length && alphaSize <= len.Length && len != parent
    requires forall v :: 1 <= v <= nNodes ==> parent[v] == -1 || v < parent[v] <= nNodes
    modifies len
    ensures forall i :: 0 <= i < alphaSize ==> len[i] == Depth(parent[..], nNodes, i + 1)
    ensures tooLong <==> exists i :: 0 <= i < alphaSize && len[i] > maxLen
    ensures forall i :: alphaSize <= i < len.Length ==> len[i] == old(len[i])
  {
    tooLong := false;
    ghost var par := parent[..];
    for i := 1 to alphaSize + 1
      invariant forall x :: 0 <= x < i - 1 ==> len[x] == Depth(par, nNodes, x + 1)
      invariant tooLong ==> exists x :: 0 <= x < i - 1 && len[x] > maxLen
      invariant !tooLong ==> forall x :: 0 <= x < i - 1 ==> len[x] <= maxLen
      invariant forall x :: alphaSize <= x < len.Length ==> len[x] == old(len[x])
    {
      var j, k := 0, i;
      while parent[k] >= 0
        invariant 1 <= k <= nNodes && j + Depth(par, nNodes, k) == Depth(par, nNodes, i)
        decreases nNodes - k
      {
        k := parent[k];
        j := j + 1;
      }
      ghost var before := len[..];
      len[i - 1] := j;
      assert forall x :: 0 <= x < i - 1 ==> len[x] == before[x];
      if j > maxLen { tooLong := true; }
    }
  }

  // ---------- flattening ----------

  /** One leaf weight flattened: 1 + half of it. */
  function Flatten(packed: int): int {
    256 * (1 + W(packed) / 2)
  }

  /** Flattening lowers every weight above 2 and raises none, so an average above 2 makes the sum drop. */
  lemma {:induction false} FlattenSum(w: seq<int>, w': seq<int>, k: nat)
    requires k < |w| == |w'| && forall v :: 1 <= v <= k ==> w[v] >= 256 && w'[v] == Flatten(w[v])
    ensures LeafSum(w', k) <= LeafSum(w, k)
    ensures LeafSum(w, k) > 2 * k ==> LeafSum(w', k) < LeafSum(w, k)
    ensures LeafSum(w', k) >= 0
    decreases k
  {
    if k > 0 {
      FlattenSum(w, w', k - 1);
      assert W(w'[k]) == 1 + W(w[k]) / 2;
    }
  }

  method FlattenWeights(weight: array<int>, alphaSize: int)
    requires Leaves(weight[..], alphaSize) && LeafSum(weight[..], alphaSize) > 2 * alphaSize
    modifies weight
    ensures Leaves(weight[..], alphaSize)
    ensures 0 <= LeafSum(weight[..], alphaSize) < old(LeafSum(weight[..], alphaSize))
    ensures LeafWeights(weight[..], alphaSize) == Halved(old(LeafWeights(weight[..], alphaSize)))
  {
    ghost var w := weight[..];
    for i := 1 to alphaSize + 1
      invariant forall v :: 1 <= v < i ==> weight[v] == Flatten(w[v])
      invariant weight[0] == 0 && forall v :: i <= v < weight.Length ==> weight[v] == w[v]
    {
      var j := weight[i] / 256;
      j := 1 + j / 2;
      weight[i] := j * 256;
    }
    FlattenSum(w, weight[..], alphaSize);
    FlattenHalves(w, weight[..], alphaSize);
  }

  /** Frequencies on the way to a shorter code. */
  ghost function Halved(ws: seq<int>): (r: seq<int>)
    ensures |r| == |ws|
  {
    seq(|ws|, i requires 0 <= i < |ws| => 1 + ws[i] / 2)
  }

  lemma FlattenHalves(w: seq<int>, w': seq<int>, alpha: nat)
    requires alpha < |w| == |w'| && forall v :: 1 <= v <= alpha ==> w'[v] == Flatten(w[v])
    ensures LeafWeights(w', alpha) == Halved(LeafWeights(w, alpha))
  {
    var a, c := LeafWeights(w', alpha), Halved(LeafWeights(w, alpha));
    forall i | 0 <= i < alpha ensures a[i] == c[i] {
      assert w'[i + 1] == Flatten(w[i + 1]);
    }
  }

  /** A tree too deep for maxLen has far more weight than leaves of weight 2 could give it. */
  lemma DeepIsHeavy(par: seq<int>, w: seq<int>, kids: seq<Kids>, alpha: int, n: int, total: int, maxLen: int, v: int)
    requires Building(par, w, kids, alpha, n, total) && Tree(par, kids, alpha, n) && par[n] == -1
    requires forall v :: 1 <= v <= n ==> par[v] == -1 || v < par[v] <= n
    requires 1 <= v <= alpha <= MAX_ALPHA && 12 <= maxLen < Depth(par, n, v)
    ensures total > 2 * alpha
  {
    DepthBelow(par, w, kids, alpha, n, v);
    FibValues();
    FibMono(15, H(w[n]) + 2);
    RootBound(par, w, n, n, n);
  }

  // ---------- the whole function ----------

  function Frequency(f: int): int { if f == 0 then 1 else f }

  ghost function FreqSum(freq: seq<int>, k: nat): int
    requires k <= |freq|
  {
    if k == 0 then 0 else FreqSum(freq, k - 1) + Frequency(freq[k - 1])
  }

  lemma {:induction false} FreqWeights(freq: seq<int>, w: seq<int>, k: nat)
    requires k <= |freq| && k < |w| && forall i :: 0 <= i < k ==> w[i + 1] == 256 * Frequency(freq[i])
    ensures LeafSum(w, k) == FreqSum(freq, k)
    decreases k
  {
    if k > 0 {
      FreqWeights(freq, w, k - 1);
      assert w[(k - 1) + 1] == 256 * Frequency(freq[k - 1]);
    }
  }

  /** The frequencies, none of them zero, after k rounds that ended with too long a code. */
  ghost function Flattened(freq: seq<int>, k: nat): (r: seq<int>)
    ensures |r| == |freq|
  {
    if k == 0 then seq(|freq|, i requires 0 <= i < |freq| => Frequency(freq[i])) else Halved(Flattened(freq, k - 1))
  }

  /** The first rounds all had no optimal code within maxLen, and len is an optimal code for the round after them. */
  ghost predicate AfterRounds(freq: seq<int>, maxLen: nat, len: seq<int>, k: nat) {
    Optimal(Flattened(freq, k), len) && forall j :: 0 <= j < k ==> !FitsIn(Flattened(freq, j), maxLen)
  }

  ghost predicate BestWithin(freq: seq<int>, maxLen: nat, len: seq<int>) {
    exists k: nat :: AfterRounds(freq, maxLen, len, k)
  }

  lemma HeightPositive(w: seq<int>, v: int)
    requires 0 <= v < |w|
    ensures H(w[v]) >= 0
  {
  }

  lemma BuiltGreedy(par: seq<int>, w: seq<int>, kids: seq<Kids>, alpha: int, n: int, total: int)
    requires Building(par, w, kids, alpha, n, total) && Tree(par, kids, alpha, n) && par[n] == -1 && alpha < n
    requires forall v :: 1 <= v <= n ==> par[v] == -1 || v < par[v] <= n
    ensures GreedyTree(par, w, kids, alpha, n) && Heights(w, kids, alpha, n)
  {
    hide Fib, RootSum, LeastPair;
  }

  lemma OptimalFrom(par: seq<int>, w: seq<int>, kids: seq<Kids>, alpha: int, n: int, len: seq<int>)
    requires GreedyTree(par, w, kids, alpha, n) && |len| == alpha
    requires forall i :: 0 <= i < alpha ==> len[i] == Depth(par, n, i + 1)
    ensures Optimal(LeafWeights(w, alpha), len)
  {
    assert alpha < |w|;
    hide GreedyTree, IsCode, CodeCost;
    forall other: seq<int>, t: nat | |other| == alpha && IsCode(other, t)
      ensures CodeCost(LeafWeights(w, alpha), len) <= CodeCost(LeafWeights(w, alpha), other)
    {
      HuffmanBest(par, w, kids, alpha, n, len, other, t, 0);
    }
  }

  /** A leaf below maxLen means that no optimal code keeps within it. */
  lemma LongLeaf(par: seq<int>, w: seq<int>, kids: seq<Kids>, alpha: int, n: int, maxLen: nat, len: seq<int>, v: int)
    requires GreedyTree(par, w, kids, alpha, n) && Heights(w, kids, alpha, n) && |len| == alpha
    requires forall i :: 0 <= i < alpha ==> len[i] == Depth(par, n, i + 1)
    requires 1 <= v <= alpha && Depth(par, n, v) > maxLen
    ensures !FitsIn(LeafWeights(w, alpha), maxLen)
  {
    HeightPositive(w, v);
    DepthBelow(par, w, kids, alpha, n, v);
    hide *;
    LongFits(par, w, kids, alpha, n, len, maxLen);
  }

  /** An optimal code within maxLen means that the tree is no higher than that. */
  lemma LongFits(par: seq<int>, w: seq<int>, kids: seq<Kids>, alpha: int, n: int, len: seq<int>, maxLen: nat)
    requires GreedyTree(par, w, kids, alpha, n) && |len| == alpha
    requires forall i :: 0 <= i < alpha ==> len[i] == Depth(par, n, i + 1)
    ensures FitsIn(LeafWeights(w, alpha), maxLen) ==> H(w[n]) <= maxLen
  {
    if FitsIn(LeafWeights(w, alpha), maxLen) {
      var other :| Optimal(LeafWeights(w, alpha), other) && IsCode(other, maxLen);
      LeafCode(par, w, kids, alpha, n, len);
      hide Kraft;
      HuffmanBest(par, w, kids, alpha, n, len, other, maxLen, maxLen);
    }
  }

  lemma LeafCode(par: seq<int>, w: seq<int>, kids: seq<Kids>, alpha: int, n: int, len: seq<int>)
    requires GreedyTree(par, w, kids, alpha, n) && |len| == alpha
    requires forall i :: 0 <= i < alpha ==> len[i] == Depth(par, n, i + 1)
    ensures IsCode(len, n)
  {
    forall i | 0 <= i < alpha ensures len[i] <= n { DepthRange(par, n, i + 1); }
    TreeKraft(par, kids, alpha, n, n, len);
  }

  lemma {:induction false} DepthRange(par: seq<int>, n: int, v: int)
    requires 1 <= v <= n < |par| && forall v :: 1 <= v <= n ==> par[v] == -1 || v < par[v] <= n
    ensures Depth(par, n, v) <= n - v
    decreases n - v
  {
    if par[v] != -1 {
      DepthRange(par, n, par[v]);
    }
  }

  /**
   * Terminates for every frequency table whose weights fit, and gives a complete prefix code: lengths from 1 to
   * maxLen whose Kraft sum is exactly one.  No prefix code spends fewer bits on symbols of these frequencies if some
   * optimal code fits in maxLen; otherwise this holds for the frequencies halved as often as none does.
   */
  method MakeCodeLengths(len: array<int>, freq: array<int>, alphaSize: int, maxLen: int)
    requires len != freq && 2 <= alphaSize <= MAX_ALPHA && alphaSize <= len.Length && alphaSize <= freq.Length && maxLen >= 12
    requires forall i :: 0 <= i < alphaSize ==> freq[i] >= 0
    requires FreqSum(freq[..], alphaSize) < WEIGHT_LIMIT
    modifies len
    ensures forall i :: 0 <= i < alphaSize ==> 1 <= len[i] <= maxLen
    ensures Kraft(len[..alphaSize], maxLen) == Pow2(maxLen)
    ensures BestWithin(freq[..alphaSize], maxLen, len[..alphaSize])
    ensures forall i :: alphaSize <= i < len.Length ==> len[i] == old(len[i])
  {
    hide LeafWeights, Flattened, Optimal, FitsIn, LeafSum, Leaves, Kraft, Pow2, FreqSum;
    var heap, weight, parent := new int[MAX_ALPHA + 2], new int[2 * MAX_ALPHA], new int[2 * MAX_ALPHA];
    SetWeights(weight, freq, alphaSize);
    var tooLong := true;
    ghost var fs, k := freq[..alphaSize], 0;
    while tooLong
      invariant Leaves(weight[..], alphaSize) && 0 <= LeafSum(weight[..], alphaSize) < WEIGHT_LIMIT
      invariant !tooLong ==> (forall i :: 0 <= i < alphaSize ==> 1 <= len[i] <= maxLen) && Kraft(len[..alphaSize], maxLen) == Pow2(maxLen)
      invariant forall i :: alphaSize <= i < len.Length ==> len[i] == old(len[i])
      invariant forall j :: 0 <= j < k ==> !FitsIn(Flattened(fs, j), maxLen)
      invariant tooLong ==> LeafWeights(weight[..], alphaSize) == Flattened(fs, k)
      invariant !tooLong ==> Optimal(Flattened(fs, k), len[..alphaSize])
      decreases LeafSum(weight[..], alphaSize), tooLong
    {
      tooLong := OneRound(heap, weight, parent, len, alphaSize, maxLen);
      if tooLong {
        FlattenedNext(fs, k);
        k := k + 1;
      }
    }
    assert AfterRounds(fs, maxLen, len[..alphaSize], k);
  }

  lemma FlattenedNext(freq: seq<int>, k: nat)
    ensures Flattened(freq, k + 1) == Halved(Flattened(freq, k))
  {
  }

  /** Builds one tree; if a leaf lies too deep, flattens the weights for the next round. */
  method OneRound(heap: array<int>, weight: array<int>, parent: array<int>, len: array<int>, alphaSize: int, maxLen: int)
    returns (tooLong: bool)
    requires heap != weight && heap != parent && weight != parent && len != heap && len != weight && len != parent
    requires heap.Length == MAX_ALPHA + 2 && weight.Length == parent.Length == 2 * MAX_ALPHA && 2 <= alphaSize <= MAX_ALPHA
    requires Leaves(weight[..], alphaSize) && LeafSum(weight[..], alphaSize) < WEIGHT_LIMIT
    requires alphaSize <= len.Length && maxLen >= 12
    modifies heap, weight, parent, len
    ensures Leaves(weight[..], alphaSize) && 0 <= LeafSum(weight[..], alphaSize)
    ensures tooLong ==> LeafSum(weight[..], alphaSize) < old(LeafSum(weight[..], alphaSize))
    ensures !tooLong ==> LeafSum(weight[..], alphaSize) == old(LeafSum(weight[..], alphaSize))
    ensures !tooLong ==> (forall i :: 0 <= i < alphaSize ==> 1 <= len[i] <= maxLen) && Kraft(len[..alphaSize], maxLen) == Pow2(maxLen)
    ensures !tooLong ==> Optimal(old(LeafWeights(weight[..], alphaSize)), len[..alphaSize])
    ensures tooLong ==> !FitsIn(old(LeafWeights(weight[..], alphaSize)), maxLen)
                        && LeafWeights(weight[..], alphaSize) == Halved(old(LeafWeights(weight[..], alphaSize)))
    ensures forall i :: alphaSize <= i < len.Length ==> len[i] == old(len[i])
  {
    hide *;
    ghost var w0 := weight[..];
    var nNodes;
    ghost var kids;
    nNodes, kids := BuildTree(heap, weight, parent, alphaSize);
    ghost var par, w := parent[..], weight[..];
    SameLeaves(w0, w, alphaSize);
    tooLong := LeafDepths(parent, nNodes, alphaSize, maxLen, len);
    BuiltGreedy(par, w, kids, alphaSize, nNodes, LeafSum(w0, alphaSize));
    if tooLong {
      ghost var i :| 0 <= i < alphaSize && len[i] > maxLen;
      DeepIsHeavy(par, w, kids, alphaSize, nNodes, LeafSum(w0, alphaSize), maxLen, i + 1);
      LongLeaf(par, w, kids, alphaSize, nNodes, maxLen, len[..alphaSize], i + 1);
      FlattenWeights(weight, alphaSize);
    } else {
      OptimalFrom(par, w, kids, alphaSize, nNodes, len[..alphaSize]);
      LeafSumPositive(w, alphaSize);
      TreeKraft(par, kids, alphaSize, nNodes, maxLen, len[..alphaSize]);
    }
  }

  lemma {:induction false} SameLeaves(w: seq<int>, w': seq<int>, k: nat)
    requires Leaves(w, k) && |w'| == |w| && forall v :: 0 <= v <= k ==> w'[v] == w[v]
    ensures Leaves(w', k) && LeafSum(w', k) == LeafSum(w, k) && LeafWeights(w', k) == LeafWeights(w, k)
    decreases k
  {
    if k > 1 {
      SameLeaves(w, w', k - 1);
    }
  }

  lemma {:induction false} LeafSumPositive(w: seq<int>, k: nat)
    requires Leaves(w, k)
    ensures LeafSum(w, k) >= 0
    decreases k
  {
    if k > 1 {
      LeafSumPositive(w, k - 1);
    }
  }

  method SetWeights(weight: array<int>, freq: array<int>, alphaSize: int)
    requires weight != freq && 1 <= alphaSize < weight.Length && alphaSize <= freq.Length
    requires forall i :: 0 <= i < alphaSize ==> freq[i] >= 0
    modifies weight
    ensures Leaves(weight[..], alphaSize) && LeafSum(weight[..], alphaSize) == FreqSum(freq[..], alphaSize)
    ensures LeafSum(weight[..], alphaSize) >= 0
    ensures LeafWeights(weight[..], alphaSize) == Flattened(freq[..alphaSize], 0)
  {
    weight[0] := 0;
    for i := 0 to alphaSize
      invariant weight[0] == 0 && forall x :: 0 <= x < i ==> weight[x + 1] == 256 * Frequency(freq[x])
    {
      weight[i + 1] := (if freq[i] == 0 then 1 else freq[i]) * 256;
    }
    forall v | 1 <= v <= alphaSize ensures weight[v] >= 256 && H(weight[v]) == 0 {
      assert weight[(v - 1) + 1] == 256 * Frequency(freq[v - 1]);
    }
    FreqWeights(freq[..], weight[..], alphaSize);
    LeafSumPositive(weight[..], alphaSize);
    FirstWeights(freq[..alphaSize], weight[..], alphaSize);
  }

  lemma FirstWeights(freq: seq<int>, w: seq<int>, alpha: nat)
    requires |freq| == alpha < |w| && forall i :: 0 <= i < alpha ==> w[i + 1] == 256 * Frequency(freq[i])
    ensures LeafWeights(w, alpha) == Flattened(freq, 0)
  {
    var a, c := LeafWeights(w, alpha), Flattened(freq, 0);
    forall i | 0 <= i < alpha ensures a[i] == c[i] {
      assert w[i + 1] == 256 * Frequency(freq[i]);
    }
  }
}
