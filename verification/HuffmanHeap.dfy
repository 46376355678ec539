/** The binary heap of the code-length builder: node numbers ordered by their weights, from index 1, with a sentinel at 0. */
module HuffmanHeap {

  /** The weight of the node at heap place i. */
  ghost function Key(h: seq<int>, w: seq<int>, i: int): int {
    if 0 <= i < |h| && 0 <= h[i] < |w| then w[h[i]] else 0
  }

  /** pos gives the place of every node in the heap, and nothing else is in it. */
  ghost predicate Placed(h: seq<int>, w: seq<int>, n: int, pos: map<int, int>) {
    && 0 <= n < |h| && |w| > 0 && h[0] == 0 && w[0] == 0
    && (forall i :: 1 <= i <= n ==> h[i] in pos && pos[h[i]] == i)
    && (forall s :: s in pos ==> 1 <= pos[s] <= n && h[pos[s]] == s && 0 < s < |w| && w[s] > 0)
  }

  /** Every node weighs at least as much as its heap parent, but for the edge above place z. */
  ghost predicate UpBroken(h: seq<int>, w: seq<int>, n: int, z: int) {
    && (forall i :: 2 <= i <= n && i != z ==> Key(h, w, i / 2) <= Key(h, w, i))
    && (z >= 2 ==> forall i :: 2 <= i <= n && i / 2 == z ==> Key(h, w, z / 2) <= Key(h, w, i))
  }

  /** Every node weighs at least as much as its heap parent, but for the edges below place z. */
  ghost predicate DownBroken(h: seq<int>, w: seq<int>, n: int, z: int) {
    && (forall i :: 2 <= i <= n && i / 2 != z ==> Key(h, w, i / 2) <= Key(h, w, i))
    && (z >= 2 ==> forall i :: 2 <= i <= n && i / 2 == z ==> Key(h, w, z / 2) <= Key(h, w, i))
  }

  ghost predicate IsHeap(h: seq<int>, w: seq<int>, n: int, pos: map<int, int>) {
    Placed(h, w, n, pos) && forall i :: 2 <= i <= n ==> Key(h, w, i / 2) <= Key(h, w, i)
  }

  ghost function Traded(h: seq<int>, p: int, q: int): seq<int>
    requires 0 <= p < |h| && 0 <= q < |h|
  {
    h[p := h[q]][q := h[p]]
  }

  ghost function TradedPos(h: seq<int>, pos: map<int, int>, p: int, q: int): map<int, int>
    requires 0 <= p < |h| && 0 <= q < |h|
  {
    pos[h[p] := q][h[q] := p]
  }

  lemma TradePlaced(h: seq<int>, w: seq<int>, n: int, pos: map<int, int>, p: int, q: int)
    requires Placed(h, w, n, pos) && 1 <= p <= n && 1 <= q <= n && p != q
    ensures Placed(Traded(h, p, q), w, n, TradedPos(h, pos, p, q)) && TradedPos(h, pos, p, q).Keys == pos.Keys
  {
    assert h[p] in pos && h[q] in pos;
    assert h[p] != h[q];
  }

  lemma TradeKey(h: seq<int>, w: seq<int>, p: int, q: int)
    requires 0 <= p < |h| && 0 <= q < |h|
    ensures forall i :: Key(Traded(h, p, q), w, i) == Key(h, w, if i == p then q else if i == q then p else i)
  {
  }

  lemma UpStep(h: seq<int>, w: seq<int>, n: int, z: int)
    requires 2 <= z <= n < |h| && UpBroken(h, w, n, z) && Key(h, w, z) < Key(h, w, z / 2)
    ensures UpBroken(Traded(h, z, z / 2), w, n, z / 2)
  {
    TradeKey(h, w, z, z / 2);
    var t := Traded(h, z, z / 2);
    hide Key;
    forall i | 2 <= i <= n && i != z / 2 ensures Key(t, w, i / 2) <= Key(t, w, i) {
    }
    if z / 2 >= 2 {
      assert Key(h, w, z / 2 / 2) <= Key(h, w, z / 2);
      forall i | 2 <= i <= n && i / 2 == z / 2 ensures Key(t, w, z / 2 / 2) <= Key(t, w, i) {
      }
    }
  }

  lemma UpDone(h: seq<int>, w: seq<int>, n: int, pos: map<int, int>, z: int)
    requires Placed(h, w, n, pos) && UpBroken(h, w, n, z) && (2 <= z ==> Key(h, w, z / 2) <= Key(h, w, z))
    ensures IsHeap(h, w, n, pos)
  {
  }

  lemma DownStep(h: seq<int>, w: seq<int>, n: int, z: int, y: int)
    requires 1 <= z && y / 2 == z && 2 <= y <= n < |h| && DownBroken(h, w, n, z) && Key(h, w, y) <= Key(h, w, z)
    requires forall i :: 2 <= i <= n && i / 2 == z ==> Key(h, w, y) <= Key(h, w, i)
    ensures DownBroken(Traded(h, z, y), w, n, y)
  {
    TradeKey(h, w, z, y);
    var t := Traded(h, z, y);
    hide Key;
    forall i | 2 <= i <= n && i / 2 != y ensures Key(t, w, i / 2) <= Key(t, w, i) {
      if z >= 2 && i == z { assert Key(h, w, z / 2) <= Key(h, w, y); }
    }
    forall i | 2 <= i <= n && i / 2 == y ensures Key(t, w, y / 2) <= Key(t, w, i) {
      assert Key(h, w, i / 2) <= Key(h, w, i);
    }
  }

  lemma DownDone(h: seq<int>, w: seq<int>, n: int, z: int)
    requires DownBroken(h, w, n, z) && forall i :: 2 <= i <= n && i / 2 == z ==> Key(h, w, z) <= Key(h, w, i)
    ensures forall i :: 2 <= i <= n ==> Key(h, w, i / 2) <= Key(h, w, i)
  {
  }

  lemma {:induction false} RootLeast(h: seq<int>, w: seq<int>, n: int, i: int)
    requires 1 <= i <= n && forall i :: 2 <= i <= n ==> Key(h, w, i / 2) <= Key(h, w, i)
    ensures Key(h, w, 1) <= Key(h, w, i)
    decreases i
  {
    if i > 1 {
      RootLeast(h, w, n, i / 2);
    }
  }

  /** The smaller child of z, or the only one. */
  method SmallerChild(heap: array<int>, weight: array<int>, nHeap: int, zz: int, ghost h: seq<int>, ghost w: seq<int>, ghost pos: map<int, int>)
    returns (yy: int)
    requires 1 <= zz && 2 * zz <= nHeap && w == weight[..] && Placed(h, w, nHeap, pos) && |h| == heap.Length
    requires forall i :: zz < i <= nHeap ==> heap[i] == h[i]
    ensures yy / 2 == zz && 2 <= yy <= nHeap
    ensures forall i :: 2 <= i <= nHeap && i / 2 == zz ==> Key(h, w, yy) <= Key(h, w, i)
  {
    yy := 2 * zz;
    assert h[yy] in pos;
    if yy < nHeap {
      assert h[yy + 1] in pos;
      if weight[heap[yy + 1]] < weight[heap[yy]] { yy := yy + 1; }
    }
    forall i | 2 <= i <= nHeap && i / 2 == zz ensures Key(h, w, yy) <= Key(h, w, i) {
      assert i == 2 * zz || i == 2 * zz + 1;
    }
  }

  /** UPHEAP: the node at place nHeap rises past heavier ones. */
  method UpHeap(heap: array<int>, weight: array<int>, nHeap: int, ghost pos0: map<int, int>) returns (ghost pos: map<int, int>)
    requires heap != weight && 1 <= nHeap && Placed(heap[..], weight[..], nHeap, pos0)
    requires UpBroken(heap[..], weight[..], nHeap, nHeap)
    modifies heap
    ensures IsHeap(heap[..], weight[..], nHeap, pos) && pos.Keys == pos0.Keys
  {
    hide Placed, UpBroken, Key, IsHeap;
    pos := pos0;
    ghost var w, h := weight[..], heap[..];
    PlacedFacts(h, w, nHeap, pos, nHeap);
    var zz := nHeap;
    var tmp := heap[zz];
    assert heap[..][zz := tmp] == h;
    while weight[tmp] < weight[heap[zz / 2]]
      invariant 1 <= zz <= nHeap < heap.Length && weight[..] == w && pos.Keys == pos0.Keys
      invariant heap[..][zz := tmp] == h && Placed(h, w, nHeap, pos) && UpBroken(h, w, nHeap, zz)
      invariant 0 < tmp < weight.Length && Key(h, w, zz) == weight[tmp]
      invariant 0 <= heap[zz / 2] < weight.Length && Key(h, w, zz / 2) == weight[heap[zz / 2]]
      decreases zz
    {
      if zz == 1 { SentinelKey(h, w, nHeap, pos, tmp); assert false; }
      UpStep(h, w, nHeap, zz);
      TradePlaced(h, w, nHeap, pos, zz, zz / 2);
      pos := TradedPos(h, pos, zz, zz / 2);
      ghost var a := heap[..];
      heap[zz] := heap[zz / 2];
      HoleMoves(a, h, zz, zz / 2, tmp);
      assert heap[..] == a[zz := a[zz / 2]];
      h := Traded(h, zz, zz / 2);
      zz := zz / 2;
      PlacedFacts(h, w, nHeap, pos, zz);
    }
    UpDone(h, w, nHeap, pos, zz);
    heap[zz] := tmp;
    assert heap[..] == h;
  }

  /** The sentinel is lighter than any node, so nothing rises past the top. */
  lemma SentinelKey(h: seq<int>, w: seq<int>, n: int, pos: map<int, int>, tmp: int)
    requires Placed(h, w, n, pos) && 1 <= n && 0 < tmp < |w| && h[1] == tmp
    ensures Key(h, w, 0) < w[tmp]
  {
    assert h[1] in pos;
  }

  /** Places z and z / 2 hold node numbers. */
  lemma PlacedFacts(h: seq<int>, w: seq<int>, n: int, pos: map<int, int>, z: int)
    requires Placed(h, w, n, pos) && 1 <= z <= n
    ensures n < |h| && 0 < h[z] < |w| && Key(h, w, z) == w[h[z]]
    ensures 0 <= h[z / 2] < |w| && Key(h, w, z / 2) == w[h[z / 2]]
  {
    assert h[z] in pos;
    if z / 2 >= 1 { assert h[z / 2] in pos; }
  }

  /** DOWNHEAP from the top: the node at place 1 sinks below lighter ones. */
  method DownHeap(heap: array<int>, weight: array<int>, nHeap: int, ghost pos0: map<int, int>) returns (ghost pos: map<int, int>)
    requires heap != weight && 1 < heap.Length && Placed(heap[..], weight[..], nHeap, pos0)
    requires nHeap >= 1 ==> DownBroken(heap[..], weight[..], nHeap, 1)
    modifies heap
    ensures IsHeap(heap[..], weight[..], nHeap, pos) && pos.Keys == pos0.Keys
  {
    hide Placed, DownBroken, Key;
    pos := pos0;
    ghost var w, h := weight[..], heap[..];
    PlacedLength(h, w, nHeap, pos);
    var zz := 1;
    var tmp := heap[zz];
    assert heap[..][zz := tmp] == h;
    while true
      invariant 1 <= zz < heap.Length && weight[..] == w && pos.Keys == pos0.Keys && nHeap < heap.Length
      invariant heap[..][zz := tmp] == h && Placed(h, w, nHeap, pos)
      invariant nHeap >= 1 ==> zz <= nHeap && DownBroken(h, w, nHeap, zz)
      decreases nHeap - zz
    {
      if 2 * zz > nHeap {
        if nHeap >= 1 { DownDone(h, w, nHeap, zz); }
        break;
      }
      var yy := SmallerChild(heap, weight, nHeap, zz, h, w, pos);
      PlacedFacts(h, w, nHeap, pos, zz);
      PlacedFacts(h, w, nHeap, pos, yy);
      assert h[zz] == tmp && h[yy] == heap[yy];
      if weight[tmp] < weight[heap[yy]] {
        DownDone(h, w, nHeap, zz);
        break;
      }
      DownStep(h, w, nHeap, zz, yy);
      TradePlaced(h, w, nHeap, pos, zz, yy);
      pos := TradedPos(h, pos, zz, yy);
      ghost var a := heap[..];
      heap[zz] := heap[yy];
      HoleMoves(a, h, zz, yy, tmp);
      assert heap[..] == a[zz := a[yy]];
      h := Traded(h, zz, yy);
      zz := yy;
    }
    heap[zz] := tmp;
    assert heap[..] == h;
  }

  lemma PlacedLength(h: seq<int>, w: seq<int>, n: int, pos: map<int, int>)
    requires Placed(h, w, n, pos)
    ensures 0 <= n < |h|
  {
  }

  /** Filling the hole at p from place q moves the hole to q. */
  lemma HoleMoves(a: seq<int>, h: seq<int>, p: int, q: int, tmp: int)
    requires 0 <= p < |a| == |h| && 0 <= q < |a| && p != q && a[p := tmp] == h
    ensures a[p := a[q]][q := tmp] == Traded(h, p, q)
  {
    assert h[p] == tmp && h[q] == a[q];
  }

  /** Adds a node. */
  method Insert(heap: array<int>, weight: array<int>, nHeap0: int, node: int, ghost pos0: map<int, int>)
    returns (nHeap: int, ghost pos: map<int, int>)
    requires heap != weight && IsHeap(heap[..], weight[..], nHeap0, pos0) && nHeap0 + 1 < heap.Length
    requires node !in pos0 && 0 < node < weight.Length && weight[node] > 0
    modifies heap
    ensures nHeap == nHeap0 + 1 && IsHeap(heap[..], weight[..], nHeap, pos) && pos.Keys == pos0.Keys + {node}
  {
    ghost var h, w := heap[..], weight[..];
    nHeap := nHeap0 + 1;
    InsertPlaced(h, w, nHeap0, node, pos0);
    hide Placed, UpBroken, IsHeap, Key;
    heap[nHeap] := node;
    assert heap[..] == h[nHeap := node];
    pos := UpHeap(heap, weight, nHeap, pos0[node := nHeap]);
  }

  lemma InsertPlaced(h: seq<int>, w: seq<int>, n: int, node: int, pos: map<int, int>)
    requires IsHeap(h, w, n, pos) && n + 1 < |h| && node !in pos && 0 < node < |w| && w[node] > 0
    ensures Placed(h[n + 1 := node], w, n + 1, pos[node := n + 1]) && UpBroken(h[n + 1 := node], w, n + 1, n + 1)
    ensures pos[node := n + 1].Keys == pos.Keys + {node}
  {
    var t := h[n + 1 := node];
    forall i | 2 <= i <= n ensures Key(t, w, i / 2) <= Key(t, w, i) {
      assert Key(h, w, i / 2) <= Key(h, w, i);
    }
  }

  /** Removes a node of least weight. */
  method ExtractMin(heap: array<int>, weight: array<int>, nHeap0: int, ghost pos0: map<int, int>)
    returns (node: int, nHeap: int, ghost pos: map<int, int>)
    requires heap != weight && 1 <= nHeap0 && IsHeap(heap[..], weight[..], nHeap0, pos0)
    modifies heap
    ensures nHeap == nHeap0 - 1 && IsHeap(heap[..], weight[..], nHeap, pos)
    ensures node in pos0 && pos.Keys == pos0.Keys - {node} && 0 < node < weight.Length
    ensures forall s :: s in pos0 ==> s < weight.Length && weight[node] <= weight[s]
  {
    ghost var h, w := heap[..], weight[..];
    ExtractPlaced(h, w, nHeap0, pos0);
    hide Placed, DownBroken, IsHeap, Key;
    node := heap[1];
    heap[1] := heap[nHeap0];
    nHeap := nHeap0 - 1;
    assert heap[..] == h[1 := h[nHeap0]];
    pos := DownHeap(heap, weight, nHeap, Without(h, pos0, nHeap0));
  }

  ghost function Without(h: seq<int>, pos: map<int, int>, n: int): map<int, int>
    requires 1 <= n < |h|
  {
    if n == 1 then map[] else pos[h[n] := 1] - {h[1]}
  }

  lemma ExtractPlaced(h: seq<int>, w: seq<int>, n: int, pos: map<int, int>)
    requires IsHeap(h, w, n, pos) && 1 <= n
    ensures n < |h| && h[1] in pos && 0 < h[1] < |w|
    ensures Without(h, pos, n).Keys == pos.Keys - {h[1]}
    ensures Placed(h[1 := h[n]], w, n - 1, Without(h, pos, n)) && (n >= 2 ==> DownBroken(h[1 := h[n]], w, n - 1, 1))
    ensures forall s :: s in pos ==> 0 < s < |w| && w[h[1]] <= w[s]
  {
    assert h[1] in pos && h[n] in pos;
    forall s | s in pos ensures w[h[1]] <= w[s] {
      RootLeast(h, w, n, pos[s]);
    }
    if n == 1 {
      forall s | s in pos ensures s == h[1] {}
    } else {
      var t := h[1 := h[n]];
      forall i | 2 <= i <= n - 1 && i / 2 != 1 ensures Key(t, w, i / 2) <= Key(t, w, i) {
        assert Key(h, w, i / 2) <= Key(h, w, i);
      }
    }
  }
}
