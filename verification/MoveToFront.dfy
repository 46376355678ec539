/** Move-to-front with zero runs: the symbol sequence of a column and the symbol-driven decoder that undoes it. */
module MoveToFront {
  import opened Permutations
  import opened Rotations

  const RUN_A := 0
  const RUN_B := 1
  /** The decoder refuses to start another run digit at or above this weight. */
  const RUN_LIMIT := 2 * 1024 * 1024

  /** y with the entry at k moved to the front. */
  function Front<T>(y: seq<T>, k: int): (r: seq<T>)
    requires 0 <= k < |y|
    ensures |r| == |y| && r[0] == y[k]
    ensures forall x :: 1 <= x < |y| ==> r[x] == if x <= k then y[x - 1] else y[x]
  {
    [y[k]] + y[..k] + y[k + 1..]
  }

  lemma FrontMembers(y: seq<int>, k: int)
    requires 0 <= k < |y| && Injective(y)
    ensures Injective(Front(y, k)) && forall v :: v in Front(y, k) <==> v in y
  {
    var r := Front(y, k);
    forall v | v in y ensures v in r {
      var x :| 0 <= x < |y| && y[x] == v;
      assert r[if x == k then 0 else if x < k then x + 1 else x] == v;
    }
  }

  /** Where v stands in y. */
  function PosOf(y: seq<int>, v: int): (k: nat)
    requires v in y
    ensures k < |y| && y[k] == v && v !in y[..k]
  {
    if y[0] == v then 0 else 1 + PosOf(y[1..], v)
  }

  /** A run length in bijective base two, least significant digit first; digits count one or two units. */
  function Digits(z: nat): (d: seq<int>)
    ensures |d| <= z && (z > 0 ==> d != []) && forall k :: 0 <= k < |d| ==> d[k] == RUN_A || d[k] == RUN_B
  {
    if z == 0 then [] else [(z - 1) % 2] + Digits((z - 1) / 2)
  }

  ghost predicate AllIn(s: seq<int>, y: seq<int>) {
    forall v :: v in s ==> v in y
  }

  /** The symbols for column s, when the list is y and z zeros are pending. */
  ghost function Symbols(y: seq<int>, z: nat, s: seq<int>, eob: int): (syms: seq<int>)
    requires Injective(y) && y != [] && AllIn(s, y)
    decreases |s|
  {
    if s == [] then Digits(z) + [eob]
    else if s[0] == y[0] then Symbols(y, z + 1, s[1..], eob)
    else
      var k := PosOf(y, s[0]);
      FrontMembers(y, k);
      Digits(z) + [k + 1] + Symbols(Front(y, k), 0, s[1..], eob)
  }

  /** There are at most as many symbols as column entries, plus the end mark; only that one is out of range. */
  lemma {:induction false} SymbolsBounds(y: seq<int>, z: nat, s: seq<int>, eob: int)
    requires Injective(y) && y != [] && AllIn(s, y)
    ensures var syms := Symbols(y, z, s, eob);
      && 1 <= |syms| <= z + |s| + 1
      && syms[|syms| - 1] == eob
      && forall k :: 0 <= k < |syms| - 1 ==> 0 <= syms[k] <= |y|
    decreases |s|
  {
    if s == [] {
    } else if s[0] == y[0] {
      SymbolsBounds(y, z + 1, s[1..], eob);
    } else {
      var k := PosOf(y, s[0]);
      FrontMembers(y, k);
      SymbolsBounds(Front(y, k), 0, s[1..], eob);
    }
  }

  /** No entry of h is followed by two equal ones. */
  ghost predicate NoTriple(h: seq<int>) {
    forall i :: 0 <= i < |h| - 2 ==> !(h[i] == h[i + 1] == h[i + 2])
  }

  /**
   * The comment in the source promises no more symbols than block bytes.  There is one more exactly when no
   * zero run is longer than one: when no column entry, counting the head of the list, comes three times in a row.
   */
  lemma {:induction false} SymbolCountExact(y: seq<int>, z: nat, s: seq<int>, eob: int)
    requires Injective(y) && y != [] && AllIn(s, y)
    ensures |Symbols(y, z, s, eob)| == z + |s| + 1 <==>
              z <= 1 && (z == 1 && s != [] ==> s[0] != y[0]) && NoTriple([y[0]] + s)
    decreases |s|
  {
    DigitsShort(z);
    hide Digits;
    var h := [y[0]] + s;
    if s == [] {
    } else if s[0] == y[0] {
      SymbolCountExact(y, z + 1, s[1..], eob);
      TripleStep(y[0], s);
    } else {
      var k := PosOf(y, s[0]);
      FrontMembers(y, k);
      SymbolCountExact(Front(y, k), 0, s[1..], eob);
      SymbolsBounds(Front(y, k), 0, s[1..], eob);
      TripleStep(y[0], s);
    }
  }

  lemma DigitsShort(z: nat)
    ensures |Digits(z)| == z <==> z <= 1
  {
    if z > 0 { assert |Digits((z - 1) / 2)| <= (z - 1) / 2; }
    assert Digits(0) == [];
  }

  /** The smallest case: a block of one byte has two symbols. */
  lemma OneSymbolMore()
    ensures AllIn([0], [0]) && Symbols([0], 0, [0], 2) == [RUN_A, 2]
  {
    assert [0][1..] == [];
    assert Digits(1) == [0] + Digits(0) == [0];
    assert Symbols([0], 1, [], 2) == Digits(1) + [2];
    assert Symbols([0], 0, [0], 2) == Symbols([0], 1, [0][1..], 2);
  }

  lemma TripleStep(h: int, s: seq<int>)
    requires s != []
    ensures NoTriple([h] + s) <==> NoTriple([s[0]] + s[1..]) && (|s| >= 2 ==> !(h == s[0] == s[1]))
  {
    var a, c := [h] + s, [s[0]] + s[1..];
    assert c == s;
    assert forall i :: 0 <= i < |c| ==> c[i] == a[i + 1];
    if NoTriple(c) && (|s| >= 2 ==> !(h == s[0] == s[1])) {
      forall i | 0 <= i < |a| - 2 ensures !(a[i] == a[i + 1] == a[i + 2]) {
        if i > 0 { assert !(c[i - 1] == c[i] == c[i + 1]); }
      }
    }
    if NoTriple(a) {
      if |s| >= 2 { assert !(a[0] == a[0 + 1] == a[0 + 2]); }
      forall i | 0 <= i < |c| - 2 ensures !(c[i] == c[i + 1] == c[i + 2]) {
        assert !(a[i + 1] == a[i + 2] == a[i + 3]);
      }
    }
  }

  // ---------- decoding ----------

  /** The decoder between symbols: its list, the run being read (n == 1 when none), and the column so far. */
  datatype Runs = Runs(mtf: seq<byte>, es: int, n: int, l: seq<byte>)

  datatype Fed = More(d: Runs) | Ended(l: seq<byte>) | BadRun

  function Copies(c: byte, k: int): (r: seq<byte>)
    ensures |r| == if k < 0 then 0 else k
    ensures forall x :: 0 <= x < |r| ==> r[x] == c
    decreases k
  {
    if k <= 0 then [] else Copies(c, k - 1) + [c]
  }

  /** What a run symbol, a list position or the end mark does to the decoder; u maps list entries to bytes. */
  function Feed(d: Runs, sym: int, eob: int, u: seq<byte>, most: int): (f: Fed)
    requires |d.mtf| == |u| == 256 && 0 <= sym <= eob <= 257
  {
    if sym == RUN_A || sym == RUN_B then
      if d.n >= RUN_LIMIT then BadRun else More(d.(es := d.es + (sym + 1) * d.n, n := d.n * 2))
    else if |d.l| + (if d.es + 1 > 0 then d.es + 1 else 0) > most then BadRun
    else
      var l := d.l + Copies(u[d.mtf[0]], d.es + 1);
      if sym == eob then Ended(l)
      else if |l| >= most then BadRun
      else More(Runs(Front(d.mtf, sym - 1), -1, 1, l + [u[d.mtf[sym - 1]]]))
  }

  ghost function FeedAll(d: Runs, syms: seq<int>, eob: int, u: seq<byte>, most: int): (f: Fed)
    requires |d.mtf| == |u| == 256 && eob <= 257 && forall k :: 0 <= k < |syms| ==> 0 <= syms[k] <= eob
    decreases |syms|
  {
    if syms == [] then More(d)
    else
      var f := Feed(d, syms[0], eob, u, most);
      if f.More? then FeedAll(f.d, syms[1..], eob, u, most) else f
  }

  lemma FeedFirst(d: Runs, sym: int, rest: seq<int>, eob: int, u: seq<byte>, most: int)
    requires |d.mtf| == |u| == 256 && 0 <= sym <= eob <= 257 && forall k :: 0 <= k < |rest| ==> 0 <= rest[k] <= eob
    ensures forall k :: 0 <= k < |[sym] + rest| ==> 0 <= ([sym] + rest)[k] <= eob
    ensures var f := Feed(d, sym, eob, u, most);
      FeedAll(d, [sym] + rest, eob, u, most) == if f.More? then FeedAll(f.d, rest, eob, u, most) else f
  {
    hide Feed;
    assert ([sym] + rest)[1..] == rest;
  }

  /** What the run digits of z add up to when the next one has weight n. */
  function Weight(z: int, n: int): int { z * n }

  lemma WeightNext(z: nat, n: int)
    requires z >= 1 && n >= 1 && Weight(z, n) < RUN_LIMIT
    ensures n < RUN_LIMIT && Weight((z - 1) / 2, n * 2) < RUN_LIMIT
    ensures ((z - 1) % 2 + 1) * n + Weight((z - 1) / 2, n * 2) == Weight(z, n)
  {
    var digit, z' := (z - 1) % 2, (z - 1) / 2;
    assert (digit + 1) + 2 * z' == z;
    assert (digit + 1) * n + z' * (n * 2) == ((digit + 1) + 2 * z') * n;
    assert z' * (n * 2) == (2 * z') * n <= z * n;
    assert n <= z * n;
  }

  /** The run digits add exactly the run length, and never meet the weight limit. */
  lemma {:induction false} DigitsFeed(d: Runs, z: nat, rest: seq<int>, eob: int, u: seq<byte>, most: int) returns (m: int)
    requires |d.mtf| == |u| == 256 && 1 < eob <= 257 && forall k :: 0 <= k < |rest| ==> 0 <= rest[k] <= eob
    requires d.n >= 1 && Weight(z, d.n) < RUN_LIMIT
    ensures m >= 1
    ensures FeedAll(d, Digits(z) + rest, eob, u, most) == FeedAll(d.(es := d.es + Weight(z, d.n), n := m), rest, eob, u, most)
    decreases z
  {
    hide FeedAll;
    if z == 0 {
      assert Digits(z) + rest == rest;
      m := d.n;
    } else {
      var digit, z' := (z - 1) % 2, (z - 1) / 2;
      WeightNext(z, d.n);
      hide Weight;
      var d' := d.(es := d.es + (digit + 1) * d.n, n := d.n * 2);
      assert Feed(d, digit, eob, u, most) == More(d');
      m := DigitsFeed(d', z', rest, eob, u, most);
      hide Feed;
      FeedFirst(d, digit, Digits(z') + rest, eob, u, most);
      assert Digits(z) + rest == [digit] + (Digits(z') + rest);
    }
  }

  ghost function Mapped(s: seq<int>, u: seq<byte>): (r: seq<byte>)
    requires |u| == 256 && forall x :: 0 <= x < |s| ==> 0 <= s[x] < 256
    ensures |r| == |s|
  {
    seq(|s|, x requires 0 <= x < |s| => u[s[x]])
  }

  lemma FrontTail<T>(y: seq<T>, tail: seq<T>, k: int)
    requires 0 <= k < |y|
    ensures Front(y + tail, k) == Front(y, k) + tail
  {
  }

  ghost predicate ByteRange(s: seq<int>) {
    forall x :: 0 <= x < |s| ==> 0 <= s[x] < 256
  }

  ghost predicate SymbolRange(syms: seq<int>, eob: int) {
    forall k :: 0 <= k < |syms| ==> 0 <= syms[k] <= eob
  }

  /** From list y + tail and output l, the symbols decode to l, the pending copies of y[0] and the column s. */
  ghost predicate DecodesTo(y: seq<int>, tail: seq<byte>, z: nat, s: seq<int>, syms: seq<int>, l: seq<byte>, u: seq<byte>, most: int) {
    && |y| + |tail| == |u| == 256 && y != [] && ByteRange(y) && ByteRange(s)
    && SymbolRange(syms, |y| + 1)
    && FeedAll(Runs(y + tail, -1, 1, l), syms, |y| + 1, u, most) == Ended(l + Copies(u[y[0]], z) + Mapped(s, u))
  }

  /** Decoding the symbols of a column gives back the column, whatever the entries behind the list. */
  lemma {:induction false} SymbolsDecode(y: seq<int>, tail: seq<byte>, z: nat, s: seq<int>, l: seq<byte>, u: seq<byte>, most: int)
    requires Injective(y) && y != [] && AllIn(s, y) && |y| + |tail| == |u| == 256 && ByteRange(y)
    requires |l| + z + |s| <= most < RUN_LIMIT
    ensures DecodesTo(y, tail, z, s, Symbols(y, z, s, |y| + 1), l, u, most)
    decreases |s|
  {
    hide DecodesTo;
    if s == [] {
      DecodeEnd(y, tail, z, l, u, most);
    } else if s[0] == y[0] {
      SymbolsDecode(y, tail, z + 1, s[1..], l, u, most);
      DecodeZero(y, tail, z, s, Symbols(y, z + 1, s[1..], |y| + 1), l, u, most);
    } else {
      var k := PosOf(y, s[0]);
      FrontMembers(y, k);
      var l' := l + Copies(u[y[0]], z) + [u[s[0]]];
      SymbolsDecode(Front(y, k), tail, 0, s[1..], l', u, most);
      DecodePosition(y, tail, z, s, k, Symbols(Front(y, k), 0, s[1..], |y| + 1), l, u, most);
    }
  }

  lemma DecodeEnd(y: seq<int>, tail: seq<byte>, z: nat, l: seq<byte>, u: seq<byte>, most: int)
    requires y != [] && |y| + |tail| == |u| == 256 && ByteRange(y) && |l| + z <= most < RUN_LIMIT
    ensures DecodesTo(y, tail, z, [], Digits(z) + [|y| + 1], l, u, most)
  {
    hide FeedAll, Feed;
    var eob, d := |y| + 1, Runs(y + tail, -1, 1, l);
    var m := DigitsFeed(d, z, [eob], eob, u, most);
    FeedEnd(d.(es := -1 + z, n := m), z, eob, u, most);
    FeedFirst(d.(es := -1 + z, n := m), eob, [], eob, u, most);
    assert [eob] + [] == [eob];
    assert l + Copies(u[y[0]], z) + Mapped([], u) == l + Copies(u[y[0]], z);
  }

  lemma DecodeZero(y: seq<int>, tail: seq<byte>, z: nat, s: seq<int>, syms: seq<int>, l: seq<byte>, u: seq<byte>, most: int)
    requires s != [] && y != [] && s[0] == y[0] && DecodesTo(y, tail, z + 1, s[1..], syms, l, u, most)
    ensures DecodesTo(y, tail, z, s, syms, l, u, most)
  {
    hide FeedAll;
    assert s == [s[0]] + s[1..];
    OneMoreZero(l, u[y[0]], z, s, u);
  }

  lemma DecodePosition(y: seq<int>, tail: seq<byte>, z: nat, s: seq<int>, k: int, rest: seq<int>, l: seq<byte>, u: seq<byte>, most: int)
    requires y != [] && s != [] && 1 <= k < |y| && s[0] == y[k] && |y| + |tail| == |u| == 256 && ByteRange(y)
    requires |l| + z < most < RUN_LIMIT
    requires DecodesTo(Front(y, k), tail, 0, s[1..], rest, l + Copies(u[y[0]], z) + [u[s[0]]], u, most)
    ensures DecodesTo(y, tail, z, s, Digits(z) + [k + 1] + rest, l, u, most)
  {
    hide FeedAll, Feed, Mapped, Copies;
    assert s == [s[0]] + s[1..];
    var eob, d := |y| + 1, Runs(y + tail, -1, 1, l);
    var m := DigitsFeed(d, z, [k + 1] + rest, eob, u, most);
    FrontTail(y, tail, k);
    FeedPosition(d.(es := -1 + z, n := m), z, k, eob, u, most);
    FeedFirst(d.(es := -1 + z, n := m), k + 1, rest, eob, u, most);
    assert Digits(z) + [k + 1] + rest == Digits(z) + ([k + 1] + rest);
    OneMoreByte(l, u[y[0]], z, s, u);
  }

  lemma OneMoreZero(l: seq<byte>, c: byte, z: nat, s: seq<int>, u: seq<byte>)
    requires s != [] && |u| == 256 && ByteRange(s) && c == u[s[0]]
    ensures l + Copies(c, z + 1) + Mapped(s[1..], u) == l + Copies(c, z) + Mapped(s, u)
  {
    assert Mapped(s, u) == [c] + Mapped(s[1..], u);
  }

  lemma OneMoreByte(l: seq<byte>, c: byte, z: nat, s: seq<int>, u: seq<byte>)
    requires s != [] && |u| == 256 && ByteRange(s)
    ensures (l + Copies(c, z) + [u[s[0]]]) + Copies(u[s[0]], 0) + Mapped(s[1..], u) == l + Copies(c, z) + Mapped(s, u)
  {
    assert Mapped(s, u) == [u[s[0]]] + Mapped(s[1..], u);
  }

  lemma FeedEnd(d: Runs, z: nat, eob: int, u: seq<byte>, most: int)
    requires |d.mtf| == |u| == 256 && 1 < eob <= 257 && d.es == z - 1 && |d.l| + z <= most
    ensures Feed(d, eob, eob, u, most) == Ended(d.l + Copies(u[d.mtf[0]], z))
  {
  }

  lemma FeedPosition(d: Runs, z: nat, k: int, eob: int, u: seq<byte>, most: int)
    requires |d.mtf| == |u| == 256 && 1 <= k < eob - 1 <= 256 && d.es == z - 1 && |d.l| + z < most
    ensures Feed(d, k + 1, eob, u, most)
         == More(Runs(Front(d.mtf, k), -1, 1, d.l + Copies(u[d.mtf[0]], z) + [u[d.mtf[k]]]))
  {
  }
}
