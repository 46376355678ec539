/** Finite permutations as sequences, and the counting facts the sorting proofs rest on. */
module Permutations {

  ghost predicate Injective<T(!new)>(s: seq<T>) {
    forall i, j :: 0 <= i < j < |s| ==> s[i] != s[j]
  }

  /** p lists every number below n exactly once. */
  ghost predicate IsPerm(p: seq<int>, n: int) {
    && |p| == n
    && (forall i :: 0 <= i < n ==> 0 <= p[i] < n)
    && Injective(p)
  }

  ghost function Elems<T>(s: seq<T>): set<T> {
    set x | x in s
  }

  lemma SubsetCard<T>(a: set<T>, b: set<T>)
    requires a <= b
    ensures |a| <= |b|
    ensures |a| == |b| ==> a == b
  {
    assert b == a + (b - a);
  }

  lemma {:induction false} InjectiveCard<T(!new)>(s: seq<T>)
    requires Injective(s)
    ensures |Elems(s)| == |s|
  {
    if s != [] {
      var k := |s| - 1;
      InjectiveCard(s[..k]);
      assert Elems(s) == Elems(s[..k]) + {s[k]};
    }
  }

  ghost function Range(n: nat): set<int> {
    if n == 0 then {} else Range(n - 1) + {n - 1}
  }

  lemma {:induction false} RangeCard(n: nat)
    ensures |Range(n)| == n
    ensures forall v :: v in Range(n) <==> 0 <= v < n
  {
    if n > 0 {
      RangeCard(n - 1);
    }
  }

  /** Distinct numbers below n are at most n many; n of them are all of them. */
  lemma Pigeonhole(s: seq<int>, n: nat)
    requires Injective(s)
    requires forall i :: 0 <= i < |s| ==> 0 <= s[i] < n
    ensures |s| <= n
    ensures |s| == n ==> forall v :: 0 <= v < n ==> v in s
  {
    InjectiveCard(s);
    RangeCard(n);
    SubsetCard(Elems(s), Range(n));
    if |s| == n {
      forall v | 0 <= v < n ensures v in s {
        assert v in Range(n);
        assert v in Elems(s);
      }
    }
  }

  lemma PermHits(p: seq<int>, n: nat, v: int) returns (i: int)
    requires IsPerm(p, n) && 0 <= v < n
    ensures 0 <= i < n && p[i] == v
  {
    Pigeonhole(p, n);
    assert v in p;
    i :| 0 <= i < n && p[i] == v;
  }
}
