/** In-place rearrangement of an array segment: the frame every sorting loop keeps. */
module Rearrange {
  import opened Permutations

  /** t is s with the entries of [lo, hi) reordered and everything else untouched. */
  ghost predicate Rearranged(s: seq<int>, t: seq<int>, lo: int, hi: int) {
    && 0 <= lo <= hi <= |s| == |t|
    && (forall x :: 0 <= x < |s| && !(lo <= x < hi) ==> t[x] == s[x])
    && multiset(s) == multiset(t)
  }

  lemma RearrangedTrans(s: seq<int>, t: seq<int>, u: seq<int>, lo: int, hi: int)
    requires Rearranged(s, t, lo, hi) && Rearranged(t, u, lo, hi)
    ensures Rearranged(s, u, lo, hi)
  {
  }

  lemma RearrangedSame(s: seq<int>, lo: int, hi: int)
    requires 0 <= lo <= hi <= |s|
    ensures Rearranged(s, s, lo, hi)
  {
  }

  lemma RearrangedFrame(s: seq<int>, t: seq<int>, lo: int, hi: int)
    requires Rearranged(s, t, lo, hi)
    ensures |s| == |t| && forall x :: 0 <= x < |s| && !(lo <= x < hi) ==> t[x] == s[x]
  {
  }

  /** Rearranging inside a prefix rearranges that prefix. */
  lemma RearrangedPrefix(s: seq<int>, t: seq<int>, lo: int, hi: int, n: int)
    requires Rearranged(s, t, lo, hi) && hi <= n <= |s|
    ensures Rearranged(s[..n], t[..n], lo, hi)
  {
    assert s == s[..n] + s[n..] && t == t[..n] + t[n..];
    assert s[n..] == t[n..];
    assert multiset(s[..n]) == multiset(s) - multiset(s[n..]);
    assert multiset(t[..n]) == multiset(t) - multiset(t[n..]);
  }

  lemma RearrangedWiden(s: seq<int>, t: seq<int>, lo: int, hi: int, lo': int, hi': int)
    requires Rearranged(s, t, lo, hi) && 0 <= lo' <= lo && hi <= hi' <= |s|
    ensures Rearranged(s, t, lo', hi')
  {
  }

  ghost function Swapped(s: seq<int>, p: int, q: int): (t: seq<int>)
    requires 0 <= p < |s| && 0 <= q < |s|
    ensures |t| == |s|
    ensures forall x :: 0 <= x < |s| ==> t[x] == if x == p then s[q] else if x == q then s[p] else s[x]
  {
    s[p := s[q]][q := s[p]]
  }

  lemma RearrangedSwap(s: seq<int>, lo: int, hi: int, p: int, q: int)
    requires 0 <= lo <= p < hi <= |s| && lo <= q < hi
    ensures Rearranged(s, Swapped(s, p, q), lo, hi)
  {
  }

  lemma SegmentEntries(s: seq<int>, lo: int, hi: int)
    requires 0 <= lo <= hi <= |s|
    ensures multiset(s[lo..hi]) == multiset(s) - multiset(s[..lo]) - multiset(s[hi..])
  {
    assert s == s[..lo] + s[lo..hi] + s[hi..];
  }

  lemma SameSegmentEntries(s: seq<int>, t: seq<int>, lo: int, hi: int)
    requires Rearranged(s, t, lo, hi)
    ensures multiset(s[lo..hi]) == multiset(t[lo..hi])
  {
    SegmentEntries(s, lo, hi);
    SegmentEntries(t, lo, hi);
    assert s[..lo] == t[..lo] && s[hi..] == t[hi..];
  }

  /** Every entry of the new segment is an entry of the old one. */
  lemma RearrangedFrom(s: seq<int>, t: seq<int>, lo: int, hi: int, x: int) returns (y: int)
    requires Rearranged(s, t, lo, hi) && lo <= x < hi
    ensures lo <= y < hi && t[x] == s[y]
  {
    SameSegmentEntries(s, t, lo, hi);
    var u, v := s[lo..hi], t[lo..hi];
    assert v[x - lo] in multiset(v);
    var k :| 0 <= k < hi - lo && u[k] == v[x - lo];
    y := lo + k;
  }

  lemma {:induction false} InjectiveMultiplicity(s: seq<int>)
    ensures Injective(s) <==> forall v :: multiset(s)[v] <= 1
  {
    if s != [] {
      var k := |s| - 1;
      assert s == s[..k] + [s[k]];
      InjectiveMultiplicity(s[..k]);
      if Injective(s) {
        assert s[k] !in s[..k];
      } else {
        var i, j :| 0 <= i < j < |s| && s[i] == s[j];
        assert s == s[..j] + s[j..];
        assert s[i] in s[..j] && s[i] in s[j..] by {
          assert s[..j][i] == s[i] && s[j..][0] == s[j];
        }
        assert multiset(s)[s[i]] == multiset(s[..j])[s[i]] + multiset(s[j..])[s[i]];
      }
    }
  }

  lemma RearrangedPerm(s: seq<int>, t: seq<int>, lo: int, hi: int, n: int)
    requires IsPerm(s, n) && Rearranged(s, t, lo, hi)
    ensures IsPerm(t, n)
  {
    InjectiveMultiplicity(s);
    InjectiveMultiplicity(t);
    forall x | 0 <= x < n ensures 0 <= t[x] < n {
      var y := RearrangedFrom(s, t, 0, n, x);
    }
  }

  /** a is s but for the place q. */
  ghost predicate Holed(a: seq<int>, s: seq<int>, q: int) {
    && |a| == |s| && 0 <= q < |s|
    && forall x :: 0 <= x < |s| && x != q ==> a[x] == s[x]
  }
}
