/** Bit strings, most significant bit first. */
module Bits {

  function Pow2(k: nat): (r: int)
    ensures r >= 1
  {
    if k == 0 then 1 else 2 * Pow2(k - 1)
  }

  lemma {:induction false} Pow2Add(a: nat, b: nat)
    ensures Pow2(a + b) == Pow2(a) * Pow2(b)
    decreases a
  {
    if a > 0 {
      Pow2Add(a - 1, b);
    }
  }

  lemma {:induction false} Pow2Mono(a: nat, b: nat)
    requires a <= b
    ensures Pow2(a) <= Pow2(b)
    decreases b
  {
    if a < b {
      Pow2Mono(a, b - 1);
    }
  }

  lemma SmallPowers()
    ensures Pow2(1) == 2 && Pow2(2) == 4 && Pow2(3) == 8 && Pow2(5) == 32 && Pow2(15) == 32768
  {
    assert Pow2(5) == 32 && Pow2(10) == 1024;
    Pow2Add(5, 10);
  }

  /** The low n bits of v. */
  function ToBits(v: int, n: nat): (s: seq<bool>)
    ensures |s| == n
    decreases n
  {
    if n == 0 then [] else ToBits(v / 2, n - 1) + [v % 2 == 1]
  }

  function Value(s: seq<bool>): (v: int)
    ensures v >= 0
  {
    if s == [] then 0 else 2 * Value(s[..|s| - 1]) + if s[|s| - 1] then 1 else 0
  }

  lemma {:induction false} ValueBound(s: seq<bool>)
    ensures Value(s) < Pow2(|s|)
  {
    if s != [] {
      ValueBound(s[..|s| - 1]);
    }
  }

  lemma {:induction false} ValueOfBits(v: int, n: nat)
    requires 0 <= v < Pow2(n)
    ensures Value(ToBits(v, n)) == v
    decreases n
  {
    if n > 0 {
      ValueOfBits(v / 2, n - 1);
      assert ToBits(v, n)[..n - 1] == ToBits(v / 2, n - 1);
    }
  }

  lemma {:induction false} BitsOfValue(s: seq<bool>)
    ensures ToBits(Value(s), |s|) == s
  {
    if s != [] {
      var t := s[..|s| - 1];
      BitsOfValue(t);
      assert Value(s) / 2 == Value(t);
      assert s == t + [s[|s| - 1]];
    }
  }

  /** Digits of x * 2^b + y, when y has b bits. */
  lemma {:induction false} BitsJoin(x: int, y: int, a: nat, b: nat)
    requires 0 <= y < Pow2(b)
    ensures ToBits(x * Pow2(b) + y, a + b) == ToBits(x, a) + ToBits(y, b)
    decreases b
  {
    if b == 0 {
      assert x * Pow2(0) + y == x;
      assert ToBits(x, a) + [] == ToBits(x, a);
    } else {
      var v := x * Pow2(b) + y;
      assert v == 2 * (x * Pow2(b - 1) + y / 2) + y % 2 by {
        assert x * Pow2(b) == 2 * (x * Pow2(b - 1));
      }
      BitsJoin(x, y / 2, a, b - 1);
      assert ToBits(x, a) + ToBits(y, b) == (ToBits(x, a) + ToBits(y / 2, b - 1)) + [y % 2 == 1];
    }
  }

  /** The leading bits are those of the quotient, the trailing ones those of v itself. */
  lemma {:induction false} BitsSplit(v: int, a: nat, b: nat)
    ensures ToBits(v, a + b) == ToBits(v / Pow2(b), a) + ToBits(v, b)
    decreases b
  {
    if b == 0 {
      assert ToBits(v, 0) == [] && v / Pow2(0) == v;
      assert ToBits(v, a) + [] == ToBits(v, a);
    } else {
      BitsSplit(v / 2, a, b - 1);
      DivTwice(v, Pow2(b - 1));
      assert ToBits(v / Pow2(b), a) + ToBits(v, b) == (ToBits(v / Pow2(b), a) + ToBits(v / 2, b - 1)) + [v % 2 == 1];
    }
  }

  lemma DivTwice(v: int, p: int)
    requires p >= 1
    ensures v / 2 / p == v / (2 * p)
  {
    var q := v / 2 / p;
    var r := v / 2 - q * p;
    assert v == 2 * (q * p + r) + v % 2;
    assert 2 * (q * p) == q * (2 * p);
    DivUnique(v, 2 * p, q, 2 * r + v % 2);
  }

  lemma DivUnique(v: int, p: int, q: int, r: int)
    requires p >= 1 && v == q * p + r && 0 <= r < p
    ensures v / p == q && v % p == r
  {
    var d := v / p - q;
    assert v == (v / p) * p + v % p;
    assert d * p == r - v % p by {
      assert d * p == (v / p) * p - q * p;
    }
    assert d >= 1 ==> d * p >= p;
    assert d <= -1 ==> d * p <= -p;
  }

  /** Bits above the n lowest do not matter. */
  lemma {:induction false} BitsMod(v: int, n: nat, m: nat)
    requires n <= m
    ensures ToBits(v % Pow2(m), n) == ToBits(v, n)
    decreases n
  {
    if n > 0 {
      var r := v % Pow2(m);
      ModHalf(v, Pow2(m - 1));
      BitsMod(v / 2, n - 1, m - 1);
    }
  }

  lemma ModHalf(v: int, p: int)
    requires p >= 1
    ensures v % (2 * p) / 2 == v / 2 % p && v % (2 * p) % 2 == v % 2
  {
    var q, r := v / (2 * p), v % (2 * p);
    assert v == q * (2 * p) + r;
    assert q * (2 * p) == 2 * (q * p);
    assert v / 2 == q * p + r / 2;
    DivUnique(v / 2, p, q, r / 2);
  }

  lemma Doubled(x: int, p: int)
    ensures 2 * (x * p) == x * (2 * p)
  {
  }

  lemma ValueLast(s: seq<bool>)
    requires s != []
    ensures Value(s) == 2 * Value(s[..|s| - 1]) + if s[|s| - 1] then 1 else 0
    ensures Pow2(|s|) == 2 * Pow2(|s| - 1)
  {
  }

  lemma {:induction false} ValueJoin(s: seq<bool>, t: seq<bool>)
    ensures Value(s + t) == Value(s) * Pow2(|t|) + Value(t)
    decreases |t|
  {
    if t == [] {
      assert s + t == s;
    } else {
      hide Value, Pow2;
      var t' := t[..|t| - 1];
      assert (s + t)[..|s + t| - 1] == s + t';
      ValueJoin(s, t');
      ValueLast(t);
      ValueLast(s + t);
      Doubled(Value(s), Pow2(|t'|));
    }
  }

  // ---------- shifts ----------

  function Shl(v: int, k: nat): int { v * Pow2(k) }

  function Shr(v: int, k: nat): int { v / Pow2(k) }

  lemma ShlJoin(x: int, n: nat, v: int, k: nat)
    ensures Shl(Shl(x, n) + v, k) == Shl(x, n + k) + Shl(v, k)
  {
    Pow2Add(n, k);
    hide Pow2;
    var p, q := Pow2(n), Pow2(k);
    assert x * (p * q) == (x * p) * q;
  }

  lemma ShlRange(x: int, a: nat, y: int, k: nat)
    requires 0 <= x < Pow2(a) && 0 <= y < Pow2(k)
    ensures 0 <= Shl(x, k) + y < Pow2(a + k)
  {
    Pow2Add(a, k);
    hide Pow2;
    var p, q := Pow2(a), Pow2(k);
    assert x * q <= (p - 1) * q == p * q - q;
  }

  lemma ShlBits(x: int, y: int, a: nat, b: nat)
    requires 0 <= y < Pow2(b)
    ensures ToBits(Shl(x, b) + y, a + b) == ToBits(x, a) + ToBits(y, b)
  {
    BitsJoin(x, y, a, b);
  }
}
