/** Counting positions by key: the arithmetic behind every bucket table of the codec. */
module Counting {
  import opened Permutations

  /** How many of the first m keys are below c. */
  function Below(keys: seq<int>, m: nat, c: int): (r: nat)
    requires m <= |keys|
    ensures r <= m
    decreases m
  {
    if m == 0 then 0 else Below(keys, m - 1, c) + if keys[m - 1] < c then 1 else 0
  }

  /** How many of the first m keys equal c. */
  function Occ(keys: seq<int>, m: nat, c: int): (r: nat)
    requires m <= |keys|
    ensures r <= m
    decreases m
  {
    if m == 0 then 0 else Occ(keys, m - 1, c) + if keys[m - 1] == c then 1 else 0
  }

  lemma {:induction false} BelowNext(keys: seq<int>, m: nat, c: int)
    requires m <= |keys|
    ensures Below(keys, m, c + 1) == Below(keys, m, c) + Occ(keys, m, c)
    decreases m
  {
    if m > 0 {
      BelowNext(keys, m - 1, c);
    }
  }

  lemma {:induction false} BelowMono(keys: seq<int>, m: nat, c: int, d: int)
    requires m <= |keys| && c <= d
    ensures Below(keys, m, c) <= Below(keys, m, d)
    decreases m
  {
    if m > 0 {
      BelowMono(keys, m - 1, c, d);
    }
  }

  lemma {:induction false} BelowEnds(keys: seq<int>, m: nat, lo: int, hi: int)
    requires m <= |keys|
    requires forall i :: 0 <= i < m ==> lo <= keys[i] < hi
    ensures Below(keys, m, lo) == 0 && Below(keys, m, hi) == m
    decreases m
  {
    if m > 0 {
      BelowEnds(keys, m - 1, lo, hi);
    }
  }

  lemma {:induction false} OccMono(keys: seq<int>, a: nat, m: nat, c: int)
    requires a <= m <= |keys|
    ensures Occ(keys, a, c) <= Occ(keys, m, c)
    ensures a < m && keys[a] == c ==> Occ(keys, a, c) < Occ(keys, m, c)
    decreases m
  {
    if a < m {
      OccMono(keys, a, m - 1, c);
    }
  }

  /** The place of position i in the stable ordering of positions by key. */
  function Rank(keys: seq<int>, i: int): (r: int)
    requires 0 <= i < |keys|
    ensures 0 <= r < |keys|
  {
    OccMono(keys, i, |keys|, keys[i]);
    BelowNext(keys, |keys|, keys[i]);
    Below(keys, |keys|, keys[i]) + Occ(keys, i, keys[i])
  }

  ghost predicate KeyBefore(keys: seq<int>, i: int, j: int)
    requires 0 <= i < |keys| && 0 <= j < |keys|
  {
    keys[i] < keys[j] || (keys[i] == keys[j] && i < j)
  }

  lemma RankOrder(keys: seq<int>, i: int, j: int)
    requires 0 <= i < |keys| && 0 <= j < |keys|
    requires KeyBefore(keys, i, j)
    ensures Rank(keys, i) < Rank(keys, j)
  {
    var n := |keys|;
    if keys[i] < keys[j] {
      OccMono(keys, i, n, keys[i]);
      BelowNext(keys, n, keys[i]);
      BelowMono(keys, n, keys[i] + 1, keys[j]);
    } else {
      OccMono(keys, i, j, keys[i]);
    }
  }

  lemma RankInjective(keys: seq<int>, i: int, j: int)
    requires 0 <= i < |keys| && 0 <= j < |keys|
    ensures Rank(keys, i) == Rank(keys, j) ==> i == j
  {
    if i != j {
      if KeyBefore(keys, i, j) { RankOrder(keys, i, j); } else { RankOrder(keys, j, i); }
    }
  }

  /** t lists the positions in stable key order: position i stands at row Rank(i). */
  ghost predicate StableOrder(keys: seq<int>, t: seq<int>) {
    && |t| == |keys|
    && forall i :: 0 <= i < |keys| ==> t[Rank(keys, i)] == i
  }

  /** All rows of a stable order are hit: it is a permutation, increasing by key and then by position. */
  lemma StableOrderRows(keys: seq<int>, t: seq<int>)
    requires StableOrder(keys, t)
    ensures IsPerm(t, |keys|)
    ensures forall r :: 0 <= r < |keys| ==> Rank(keys, t[r]) == r
    ensures forall r, s :: 0 <= r < s < |keys| ==> KeyBefore(keys, t[r], t[s])
  {
    var n := |keys|;
    var ranks := seq(n, i requires 0 <= i < n => Rank(keys, i));
    forall i, j | 0 <= i < j < n ensures ranks[i] != ranks[j] {
      RankInjective(keys, i, j);
    }
    forall r | 0 <= r < n ensures 0 <= t[r] < n && Rank(keys, t[r]) == r {
      var i := PermHits(ranks, n, r);
      assert t[Rank(keys, i)] == i;
    }
    forall r, s | 0 <= r < s < n ensures KeyBefore(keys, t[r], t[s]) {
      if !KeyBefore(keys, t[r], t[s]) {
        if t[r] != t[s] {
          RankOrder(keys, t[s], t[r]);
        }
        assert false;
      }
    }
  }

  /** The stable order of the positions: the position that stands at each row. */
  ghost function StableOf(keys: seq<int>): (t: seq<int>)
    ensures |t| == |keys|
  {
    seq(|keys|, r requires 0 <= r < |keys| => RowOf(keys, r))
  }

  ghost function RowOf(keys: seq<int>, r: int): (i: int)
    requires 0 <= r < |keys|
    ensures 0 <= i < |keys| && Rank(keys, i) == r
  {
    RankHit(keys, r);
    var i :| 0 <= i < |keys| && Rank(keys, i) == r;
    i
  }

  lemma RankHit(keys: seq<int>, r: int)
    requires 0 <= r < |keys|
    ensures exists i :: 0 <= i < |keys| && Rank(keys, i) == r
  {
    var ranks := seq(|keys|, i requires 0 <= i < |keys| => Rank(keys, i));
    forall i, j | 0 <= i < j < |keys| ensures ranks[i] != ranks[j] {
      RankInjective(keys, i, j);
    }
    var i := PermHits(ranks, |keys|, r);
    assert Rank(keys, i) == r;
  }

  lemma StableExists(keys: seq<int>)
    ensures StableOrder(keys, StableOf(keys)) && IsPerm(StableOf(keys), |keys|)
  {
    forall i | 0 <= i < |keys| ensures StableOf(keys)[Rank(keys, i)] == i {
      RankInjective(keys, RowOf(keys, Rank(keys, i)), i);
    }
    StableOrderRows(keys, StableOf(keys));
  }

  lemma StableUnique(keys: seq<int>, t: seq<int>)
    requires StableOrder(keys, t)
    ensures t == StableOf(keys)
  {
    StableExists(keys);
    StableOrderRows(keys, t);
    forall r | 0 <= r < |keys| ensures t[r] == StableOf(keys)[r] {
      assert StableOf(keys)[Rank(keys, t[r])] == t[r];
    }
  }

  /** The place of position i when each bucket is filled from its end, in order of position. */
  ghost function RankDown(keys: seq<int>, i: int): (r: int)
    requires 0 <= i < |keys|
    ensures Below(keys, |keys|, keys[i]) <= r < Below(keys, |keys|, keys[i] + 1)
    ensures 0 <= r < |keys|
  {
    OccMono(keys, i, |keys|, keys[i]);
    BelowNext(keys, |keys|, keys[i]);
    Below(keys, |keys|, keys[i] + 1) - 1 - Occ(keys, i, keys[i])
  }

  lemma RankDownInjective(keys: seq<int>, i: int, j: int)
    requires 0 <= i < |keys| && 0 <= j < |keys|
    ensures RankDown(keys, i) == RankDown(keys, j) ==> i == j
  {
    var n := |keys|;
    if keys[i] < keys[j] {
      BelowMono(keys, n, keys[i] + 1, keys[j]);
    } else if keys[j] < keys[i] {
      BelowMono(keys, n, keys[j] + 1, keys[i]);
    } else if i < j {
      OccMono(keys, i, j, keys[i]);
    } else if j < i {
      OccMono(keys, j, i, keys[i]);
    }
  }

  /** Every row lies in the bucket of the key it holds. */
  ghost predicate KeyPlaced(keys: seq<int>, f: seq<int>) {
    && IsPerm(f, |keys|)
    && forall x :: 0 <= x < |keys| ==>
         Below(keys, |keys|, keys[f[x]]) <= x < Below(keys, |keys|, keys[f[x]] + 1)
  }

  lemma StablePlaced(keys: seq<int>, t: seq<int>)
    requires StableOrder(keys, t)
    ensures KeyPlaced(keys, t)
  {
    StableOrderRows(keys, t);
    forall x | 0 <= x < |keys|
      ensures Below(keys, |keys|, keys[t[x]]) <= x < Below(keys, |keys|, keys[t[x]] + 1)
    {
      assert Rank(keys, t[x]) == x;
      OccMono(keys, t[x], |keys|, keys[t[x]]);
      BelowNext(keys, |keys|, keys[t[x]]);
    }
  }

  lemma FilledDown(keys: seq<int>, f: seq<int>)
    requires |f| == |keys|
    requires forall i :: 0 <= i < |keys| ==> f[RankDown(keys, i)] == i
    ensures KeyPlaced(keys, f)
  {
    var n := |keys|;
    var ranks := seq(n, i requires 0 <= i < n => RankDown(keys, i));
    forall i, j | 0 <= i < j < n ensures ranks[i] != ranks[j] {
      RankDownInjective(keys, i, j);
    }
    forall x | 0 <= x < n ensures 0 <= f[x] < n && RankDown(keys, f[x]) == x {
      var i := PermHits(ranks, n, x);
      assert f[RankDown(keys, i)] == i;
    }
    assert Injective(f);
  }

  lemma Placement(keys: seq<int>, f: seq<int>, x: int)
    requires KeyPlaced(keys, f) && 0 <= x < |keys|
    ensures Below(keys, |keys|, keys[f[x]]) <= x < Below(keys, |keys|, keys[f[x]] + 1)
  {
  }

  /** Neighbouring rows have different keys exactly at the bucket starts. */
  lemma BucketStart(keys: seq<int>, f: seq<int>, x: int, c: int, d: int)
    requires KeyPlaced(keys, f) && 0 < x < |keys| && c == keys[f[x - 1]] && d == keys[f[x]]
    ensures c <= d
    ensures c < d ==> x == Below(keys, |keys|, d)
  {
    Placement(keys, f, x - 1);
    Placement(keys, f, x);
    hide Below, KeyPlaced;
    if d < c {
      BelowMono(keys, |keys|, d + 1, c);
    } else if c < d {
      BelowMono(keys, |keys|, c + 1, d);
    }
  }

  lemma NoBucketStart(keys: seq<int>, f: seq<int>, x: int, e: int)
    requires KeyPlaced(keys, f) && 0 < x < |keys| && keys[f[x - 1]] == keys[f[x]]
    ensures x != Below(keys, |keys|, e)
  {
    hide Below;
    var n := |keys|;
    var c := keys[f[x]];
    if e <= c { BelowMono(keys, n, e, c); } else { BelowMono(keys, n, c + 1, e); }
  }

  /** No row lies in two buckets. */
  lemma OneBucket(keys: seq<int>, x: int, c: int, d: int)
    requires Below(keys, |keys|, c) <= x < Below(keys, |keys|, c + 1)
    requires Below(keys, |keys|, d) <= x < Below(keys, |keys|, d + 1)
    ensures c == d
  {
    if c < d {
      BelowMono(keys, |keys|, c + 1, d);
    } else if d < c {
      BelowMono(keys, |keys|, d + 1, c);
    }
  }

  lemma RowKey(keys: seq<int>, f: seq<int>, x: int, c: int)
    requires KeyPlaced(keys, f) && 0 <= x < |keys|
    requires Below(keys, |keys|, c) <= x < Below(keys, |keys|, c + 1)
    ensures keys[f[x]] == c
  {
    Placement(keys, f, x);
    hide KeyPlaced;
    OneBucket(keys, x, c, keys[f[x]]);
  }
}
