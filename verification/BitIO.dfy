/** The bit buffers on both sides: 32-bit words filled from the top when writing and from the bottom when reading. */
module BitIO {
  import opened Bits
  import opened Rotations

  lemma Assoc<T>(a: seq<T>, b: seq<T>, c: seq<T>)
    ensures a + b + c == a + (b + c)
  {
  }

  function ByteBits(s: seq<byte>): (r: seq<bool>)
    ensures |r| == 8 * |s|
  {
    if s == [] then [] else ByteBits(s[..|s| - 1]) + ToBits(s[|s| - 1], 8)
  }

  lemma ByteBitsPush(s: seq<byte>, c: byte)
    ensures ByteBits(s + [c]) == ByteBits(s) + ToBits(c, 8)
  {
    assert (s + [c])[..|s|] == s;
  }

  lemma {:induction false} ByteBitsJoin(s: seq<byte>, t: seq<byte>)
    ensures ByteBits(s + t) == ByteBits(s) + ByteBits(t)
    decreases |t|
  {
    if t == [] {
      assert s + t == s;
    } else {
      var t' := t[..|t| - 1];
      var c := t[|t| - 1];
      assert t == t' + [c];
      Assoc(s, t', [c]);
      ByteBitsJoin(s, t');
      ByteBitsPush(s + t', c);
      ByteBitsPush(t', c);
      hide ByteBits, ToBits;
      Assoc(ByteBits(s), ByteBits(t'), ToBits(c, 8));
    }
  }

  lemma ByteBitsFirst(s: seq<byte>)
    requires s != []
    ensures ByteBits(s) == ToBits(s[0], 8) + ByteBits(s[1..])
  {
    assert s == [s[0]] + s[1..];
    ByteBitsJoin([s[0]], s[1..]);
    assert [s[0]][..0] == [];
    assert ByteBits([s[0]]) == [] + ToBits(s[0], 8);
  }

  function Zeros(n: nat): (r: seq<bool>)
    ensures |r| == n && forall k :: 0 <= k < n ==> !r[k]
  {
    seq(n, _ => false)
  }

  // ---------- writing ----------

  const WORD := 0x1_0000_0000

  /** The live bits are the top ones of the buffer; below them it is zero. */
  ghost predicate WriteBuffer(buff: int, live: int) {
    0 <= live <= 32 && 0 <= buff < WORD && ToBits(buff, 32) == ToBits(buff, 32)[..live] + Zeros(32 - live)
  }

  ghost function Live(buff: int, live: int): (s: seq<bool>)
    requires 0 <= live <= 32
  {
    ToBits(buff, 32)[..live]
  }

  lemma Word32()
    ensures Pow2(32) == WORD && Pow2(24) == 0x100_0000 && Pow2(8) == 256 && Pow2(0) == 1
  {
    assert Pow2(8) == 256;
    Pow2Add(8, 8);
    Pow2Add(16, 8);
    Pow2Add(16, 16);
  }

  lemma {:induction false} ZeroBits(n: nat)
    ensures ToBits(0, n) == Zeros(n)
    decreases n
  {
    if n > 0 {
      ZeroBits(n - 1);
    }
  }

  /** The top byte goes out, the rest moves up. */
  lemma ShiftOut(buff: int, live: int)
    requires WriteBuffer(buff, live) && live >= 8
    ensures 0 <= buff / 0x100_0000 < 256
    ensures var buff' := buff * 256 % WORD;
      WriteBuffer(buff', live - 8) && ToBits(buff / 0x100_0000, 8) + Live(buff', live - 8) == Live(buff, live)
  {
    hide ToBits, Pow2;
    Word32();
    var top, rest := buff / 0x100_0000, buff % 0x100_0000;
    var buff' := buff * 256 % WORD;
    assert buff' == rest * 256 + 0;
    BitsJoin(rest, 0, 24, 8);
    ZeroBits(8);
    BitsSplit(buff, 8, 24);
    BitsMod(buff, 24, 24);
    var all, low := ToBits(buff, 32), ToBits(rest, 24);
    assert all == ToBits(top, 8) + low && ToBits(buff', 32) == low + Zeros(8);
    assert low == all[8..];
    forall k | live - 8 <= k < 32 ensures !ToBits(buff', 32)[k] {
      if k < 24 { assert low[k] == all[k + 8]; assert all[k + 8] == Zeros(32 - live)[k + 8 - live]; }
    }
    assert ToBits(buff', 32) == ToBits(buff', 32)[..live - 8] + Zeros(32 - (live - 8));
    assert ToBits(top, 8) + Live(buff', live - 8) == Live(buff, live);
  }

  /** Adding a value just below the live bits appends its bits. */
  lemma AddBits(buff: int, live: int, n: nat, v: int)
    requires WriteBuffer(buff, live) && live + n <= 32 && 0 <= v < Pow2(n)
    ensures WriteBuffer(buff + Shl(v, 32 - live - n), live + n)
    ensures Live(buff + Shl(v, 32 - live - n), live + n) == Live(buff, live) + ToBits(v, n)
  {
    hide Pow2, ToBits, Value, Shl;
    var k, head := 32 - live - n, Live(buff, live);
    var x := Value(head);
    BitsOfValue(head);
    ValueBound(head);
    BufferValue(buff, live);
    ShlJoin(x, n, v, k);
    BufferBits(x, live, v, n, k);
    var e := buff + Shl(v, k);
    assert ToBits(e, 32) == head + ToBits(v, n) + Zeros(k);
    assert ToBits(e, 32)[..live + n] == head + ToBits(v, n);
  }

  /** A buffer with x in its top bits, v below them and zeros in the last k. */
  lemma BufferBits(x: int, live: nat, v: int, n: nat, k: nat)
    requires 0 <= x < Pow2(live) && 0 <= v < Pow2(n) && live + n + k == 32
    ensures 0 <= Shl(Shl(x, n) + v, k) < WORD
    ensures ToBits(Shl(Shl(x, n) + v, k), 32) == ToBits(x, live) + ToBits(v, n) + Zeros(k)
  {
    Word32();
    hide Pow2, ToBits, Shl;
    ShlBits(x, v, live, n);
    ShlBits(Shl(x, n) + v, 0, live + n, k);
    ZeroBits(k);
    ShlRange(x, live, v, n);
    ShlRange(Shl(x, n) + v, live + n, 0, k);
  }

  lemma BufferValue(buff: int, live: int)
    requires WriteBuffer(buff, live)
    ensures buff == Shl(Value(Live(buff, live)), 32 - live)
  {
    Word32();
    hide ToBits, Pow2, Value;
    ValueOfBits(buff, 32);
    ZeroBits(32 - live);
    ValueOfBits(0, 32 - live);
    ValueJoin(Live(buff, live), Zeros(32 - live));
  }

  /** The bits of the bytes out so far and of the buffer. */
  ghost function Stream(out: seq<byte>, buff: int, live: int): seq<bool>
    requires 0 <= live <= 32
  {
    ByteBits(out) + Live(buff, live)
  }

  lemma StreamEmit(out: seq<byte>, zbits: seq<byte>, buff: int, live: int)
    requires WriteBuffer(buff, live) && live >= 8
    ensures 0 <= buff / 0x100_0000 < 256 && WriteBuffer(buff * 256 % WORD, live - 8)
    ensures Stream(out + (zbits + [buff / 0x100_0000]), buff * 256 % WORD, live - 8) == Stream(out + zbits, buff, live)
  {
    ShiftOut(buff, live);
    hide WriteBuffer, Live, ToBits, ByteBits;
    var c: byte := buff / 0x100_0000;
    Assoc(out, zbits, [c]);
    ByteBitsPush(out + zbits, c);
    Assoc(ByteBits(out + zbits), ToBits(c, 8), Live(buff * 256 % WORD, live - 8));
  }

  lemma StreamAdd(out: seq<byte>, buff: int, live: int, n: nat, v: int)
    requires WriteBuffer(buff, live) && live + n <= 32 && 0 <= v < Pow2(n)
    ensures WriteBuffer(buff + Shl(v, 32 - live - n), live + n)
    ensures Stream(out, buff + Shl(v, 32 - live - n), live + n) == Stream(out, buff, live) + ToBits(v, n)
  {
    AddBits(buff, live, n, v);
    hide WriteBuffer, Live, ToBits, ByteBits, Pow2, Shl;
    Assoc(ByteBits(out), Live(buff, live), ToBits(v, n));
  }

  lemma StreamLast(out: seq<byte>, zbits: seq<byte>, buff: int, live: int)
    requires WriteBuffer(buff, live) && 0 < live < 8
    ensures 0 <= buff / 0x100_0000 < 256
    ensures ByteBits(out + (zbits + [buff / 0x100_0000])) == Stream(out + zbits, buff, live) + Zeros(8 - live)
  {
    LastByte(buff, live);
    hide WriteBuffer, Live, ToBits, ByteBits;
    var c: byte := buff / 0x100_0000;
    Assoc(out, zbits, [c]);
    ByteBitsPush(out + zbits, c);
    Assoc(ByteBits(out + zbits), Live(buff, live), Zeros(8 - live));
  }

  lemma BufferFacts(buff: int, live: int)
    requires WriteBuffer(buff, live)
    ensures 0 <= live <= 32 && 0 <= buff < WORD
  {
  }

  class BitWriter {
    var zbits: seq<byte>
    var bsBuff: int
    var bsLive: int
    /** Bytes already handed over to the caller when the output area was reused. */
    ghost var drained: seq<byte>

    ghost predicate Valid()
      reads this
    {
      WriteBuffer(bsBuff, bsLive) && bsLive <= 31
    }

    /** Everything written so far, in bits. */
    ghost function Contents(): seq<bool>
      requires Valid()
      reads this
    {
      Stream(drained + zbits, bsBuff, bsLive)
    }

    constructor ()
      ensures Valid() && zbits == drained == [] && Contents() == []
    {
      zbits, bsBuff, bsLive, drained := [], 0, 0, [];
      new;
      ZeroBits(32);
    }

    /** The output area is empty again; bits not yet in a byte stay in the buffer. */
    method Reuse()
      requires Valid()
      modifies this
      ensures Valid() && Contents() == old(Contents()) && zbits == [] && drained == old(drained + zbits)
    {
      drained := drained + zbits;
      zbits := [];
      assert drained + [] == drained;
    }

    /** bsW: appends the n low bits of v. */
    method Put(n: int, v: int)
      requires Valid() && 0 <= n <= 24 && 0 <= v < Pow2(n)
      modifies this
      ensures Valid() && Contents() == old(Contents()) + ToBits(v, n) && drained == old(drained)
    {
      hide WriteBuffer, Stream, Pow2, ToBits, Shl;
      BufferFacts(bsBuff, bsLive);
      while bsLive >= 8
        invariant WriteBuffer(bsBuff, bsLive) && 0 <= bsLive <= 31 && drained == old(drained)
        invariant Stream(drained + zbits, bsBuff, bsLive) == old(Contents())
        decreases bsLive
      {
        StreamEmit(drained, zbits, bsBuff, bsLive);
        zbits := zbits + [bsBuff / 0x100_0000];
        bsBuff := bsBuff * 256 % WORD;
        bsLive := bsLive - 8;
      }
      StreamAdd(drained + zbits, bsBuff, bsLive, n, v);
      bsBuff := bsBuff + Shl(v, 32 - bsLive - n);
      bsLive := bsLive + n;
    }

    method PutUChar(c: byte)
      requires Valid()
      modifies this
      ensures Valid() && Contents() == old(Contents()) + ToBits(c, 8) && drained == old(drained)
    {
      hide WriteBuffer, Stream, ToBits;
      Word32();
      Put(8, c);
    }

    method PutUInt32(u: int)
      requires Valid() && 0 <= u < WORD
      modifies this
      ensures Valid() && Contents() == old(Contents()) + ToBits(u, 32) && drained == old(drained)
    {
      hide WriteBuffer, Stream, ToBits;
      QuarterBits(u);
      ghost var a, b, c, d := ToBits(u / 0x100_0000 % 256, 8), ToBits(u / 0x1_0000 % 256, 8), ToBits(u / 0x100 % 256, 8), ToBits(u % 256, 8);
      FourParts(Contents(), a, b, c, d);
      PutUChar(u / 0x100_0000 % 256);
      PutUChar(u / 0x1_0000 % 256);
      PutUChar(u / 0x100 % 256);
      PutUChar(u % 256);
    }

    /** bsFinishWrite: flushes the last bits, padded with zeros to a whole byte. */
    method FinishWrite() returns (ghost pad: nat)
      requires Valid()
      modifies this
      ensures drained == old(drained)
      ensures pad < 8 && ByteBits(drained + zbits) == old(Contents()) + Zeros(pad)
    {
      hide WriteBuffer, ToBits, ByteBits, Stream;
      BufferFacts(bsBuff, bsLive);
      pad := 0;
      StreamDone(drained + zbits, bsBuff, bsLive);
      while bsLive > 0
        invariant bsLive > 0 ==> WriteBuffer(bsBuff, bsLive) && bsLive <= 31 && pad == 0
        invariant bsLive > 0 ==> Stream(drained + zbits, bsBuff, bsLive) == old(Contents())
        invariant bsLive <= 0 ==> 0 <= pad < 8 && ByteBits(drained + zbits) == old(Contents()) + Zeros(pad)
        invariant drained == old(drained)
        decreases bsLive
      {
        if bsLive >= 8 {
          StreamEmit(drained, zbits, bsBuff, bsLive);
        } else {
          StreamLast(drained, zbits, bsBuff, bsLive);
          pad := 8 - bsLive;
        }
        zbits := zbits + [bsBuff / 0x100_0000];
        bsBuff := bsBuff * 256 % WORD;
        bsLive := bsLive - 8;
        if bsLive == 0 { StreamDone(drained + zbits, bsBuff, bsLive); }
      }
    }
  }

  lemma StreamDone(out: seq<byte>, buff: int, live: int)
    requires 0 <= live <= 32
    ensures live == 0 ==> ByteBits(out) == Stream(out, buff, live) + Zeros(0)
  {
  }

  lemma FourParts(s: seq<bool>, a: seq<bool>, b: seq<bool>, c: seq<bool>, d: seq<bool>)
    ensures s + (a + b + c + d) == s + a + b + c + d
  {
  }

  lemma QuarterBits(u: int)
    requires 0 <= u < WORD
    ensures ToBits(u, 32) == ToBits(u / 0x100_0000 % 256, 8) + ToBits(u / 0x1_0000 % 256, 8) + ToBits(u / 0x100 % 256, 8) + ToBits(u % 256, 8)
  {
    Word32();
    BitsSplit(u, 24, 8);
    BitsSplit(u / 0x100, 16, 8);
    BitsSplit(u / 0x1_0000, 8, 8);
    BitsMod(u, 8, 8);
    BitsMod(u / 0x100, 8, 8);
    BitsMod(u / 0x1_0000, 8, 8);
    BitsMod(u / 0x100_0000, 8, 8);
    hide ToBits, Pow2;
    assert u / 0x100 / 0x100 == u / 0x1_0000 && u / 0x1_0000 / 0x100 == u / 0x100_0000;
  }

  lemma LastByte(buff: int, live: int)
    requires WriteBuffer(buff, live) && 0 < live < 8
    ensures 0 <= buff / 0x100_0000 < 256
    ensures ToBits(buff / 0x100_0000, 8) == Live(buff, live) + Zeros(8 - live)
  {
    Word32();
    BitsSplit(buff, 8, 24);
    hide ToBits, Pow2;
    assert ToBits(buff / 0x100_0000, 8) == ToBits(buff, 32)[..8];
    assert ToBits(buff, 32)[..8] == Live(buff, live) + Zeros(8 - live);
  }

  // ---------- reading ----------

  /** The unread bits of a read buffer are its low ones. */
  ghost function Unread(buff: int, live: int): (s: seq<bool>)
    requires 0 <= live
    ensures |s| == live
  {
    ToBits(buff, live)
  }

  /** Shifting in a byte: no unread bit is lost as long as at most 24 were unread. */
  lemma ShiftIn(buff: int, live: int, c: byte)
    requires 0 <= live <= 24
    ensures Unread((buff * 256 + c) % WORD, live + 8) == Unread(buff, live) + ToBits(c, 8)
  {
    Word32();
    BitsJoin(buff, c, live, 8);
    BitsMod(buff * 256 + c, live + 8, 32);
  }

  /** Taking n bits off the top of the unread ones. */
  lemma TakeBits(buff: int, live: int, n: nat)
    requires 0 <= n <= live
    ensures var v := Shr(buff, live - n) % Pow2(n);
      0 <= v < Pow2(n) && Unread(buff, live) == ToBits(v, n) + Unread(buff, live - n) && Value(ToBits(v, n)) == v
  {
    BitsSplit(buff, n, live - n);
    BitsMod(buff / Pow2(live - n), n, n);
    ValueOfBits(Shr(buff, live - n) % Pow2(n), n);
  }

  class BitReader {
    var input: seq<byte>  // what the caller has made available
    var bsBuff: int
    var bsLive: int

    ghost predicate Valid()
      reads this
    {
      0 <= bsLive <= 31
    }

    /** All bits not yet taken: those in the buffer, then the available input. */
    ghost function Ahead(): seq<bool>
      requires Valid()
      reads this
    {
      AheadOf(input, bsBuff, bsLive)
    }

    constructor ()
      ensures Valid() && input == [] && bsLive == 0 && Ahead() == []
    {
      input, bsBuff, bsLive := [], 0, 0;
    }

    /** The caller supplies more input. */
    method Supply(more: seq<byte>)
      requires Valid()
      modifies this
      ensures Valid() && Ahead() == old(Ahead()) + ByteBits(more) && input == old(input) + more && bsLive == old(bsLive)
    {
      hide Unread, ByteBits;
      ByteBitsJoin(input, more);
      Assoc(Unread(bsBuff, bsLive), ByteBits(input), ByteBits(more));
      input := input + more;
    }

    /**
     * GET_BITS: the value of the next n bits, or no value when the input ends before them; in that case all of
     * the input has been taken into the buffer and nothing is lost.  No byte is taken that is not needed: when any
     * is taken, fewer than eight bits are left over.
     */
    method GetBits(n: int) returns (ok: bool, v: int)
      requires Valid() && 1 <= n <= 24
      modifies this
      ensures Valid() && ok == (|old(Ahead())| >= n)
      ensures ok ==> v == Value(old(Ahead())[..n]) && Ahead() == old(Ahead())[n..]
      ensures !ok ==> input == [] && Ahead() == old(Ahead())
      ensures EndOf(input, old(input)) && if ok then bsLive < 8 || bsLive + n == old(bsLive) else bsLive < n
    {
      hide AheadOf, Pow2, Shr, Value;
      ghost var all, given := Ahead(), input;
      v := 0;
      while true
        invariant 0 <= bsLive <= 31 && Ahead() == all && EndOf(input, given)
        invariant bsLive < n + 8 || bsLive == old(bsLive)
        decreases |input|
      {
        if bsLive >= n {
          TakeAhead(input, bsBuff, bsLive, n);
          v := Shr(bsBuff, bsLive - n) % Pow2(n);
          bsLive := bsLive - n;
          return true, v;
        }
        if input == [] {
          NoneAhead(bsBuff, bsLive);
          return false, v;
        }
        MoreAhead(input, bsBuff, bsLive);
        bsBuff := (bsBuff * 256 + input[0]) % WORD;
        bsLive := bsLive + 8;
        input := input[1..];
      }
    }
  }

  /** s is the last part of t. */
  ghost predicate EndOf(s: seq<byte>, t: seq<byte>) {
    |s| <= |t| && s == t[|t| - |s|..]
  }

  lemma EndOfSelf(s: seq<byte>)
    ensures EndOf(s, s)
  {
  }

  lemma EndOfEnd(r: seq<byte>, s: seq<byte>, t: seq<byte>)
    requires EndOf(r, s) && EndOf(s, t)
    ensures EndOf(r, t)
  {
  }

  ghost function AheadOf(input: seq<byte>, buff: int, live: nat): seq<bool> {
    Unread(buff, live) + ByteBits(input)
  }

  lemma TakeAhead(input: seq<byte>, buff: int, live: int, n: nat)
    requires 0 <= n <= live
    ensures |AheadOf(input, buff, live)| >= n
    ensures Shr(buff, live - n) % Pow2(n) == Value(AheadOf(input, buff, live)[..n])
    ensures AheadOf(input, buff, live - n) == AheadOf(input, buff, live)[n..]
  {
    TakeBits(buff, live, n);
    hide ToBits, Pow2, Value, Unread, ByteBits, Shr;
    var v := Shr(buff, live - n) % Pow2(n);
    Assoc(ToBits(v, n), Unread(buff, live - n), ByteBits(input));
  }

  lemma NoneAhead(buff: int, live: nat)
    ensures |AheadOf([], buff, live)| == live
  {
  }

  lemma MoreAhead(input: seq<byte>, buff: int, live: int)
    requires 0 <= live <= 24 && input != []
    ensures AheadOf(input[1..], (buff * 256 + input[0]) % WORD, live + 8) == AheadOf(input, buff, live)
  {
    ByteBitsFirst(input);
    ShiftIn(buff, live, input[0]);
    hide ToBits, Unread, ByteBits;
    Assoc(Unread(buff, live), ToBits(input[0], 8), ByteBits(input[1..]));
  }

  // ---------- writing and reading a sequence of fields ----------

  datatype Field = Field(n: nat, v: int)

  ghost predicate Writable(fs: seq<Field>) {
    forall i :: 0 <= i < |fs| ==> 1 <= fs[i].n <= 24 && 0 <= fs[i].v < Pow2(fs[i].n)
  }

  ghost function Written(fs: seq<Field>): seq<bool> {
    if fs == [] then [] else ToBits(fs[0].v, fs[0].n) + Written(fs[1..])
  }

  /** The values of successive fields of the given widths, as far as the bits go. */
  ghost function ReadFields(bits: seq<bool>, widths: seq<nat>): (vs: seq<int>)
    decreases |widths|
  {
    if widths == [] || |bits| < widths[0] then []
    else [Value(bits[..widths[0]])] + ReadFields(bits[widths[0]..], widths[1..])
  }

  ghost function Widths(fs: seq<Field>): seq<nat> {
    if fs == [] then [] else [fs[0].n] + Widths(fs[1..])
  }

  ghost function Values(fs: seq<Field>): seq<int> {
    if fs == [] then [] else [fs[0].v] + Values(fs[1..])
  }

  /** Reading back fields of the same widths returns every value, whatever padding follows. */
  lemma {:induction false} FieldsReadBack(fs: seq<Field>, rest: seq<bool>)
    requires Writable(fs)
    ensures ReadFields(Written(fs) + rest, Widths(fs)) == Values(fs)
    decreases |fs|
  {
    if fs != [] {
      var f, tail := fs[0], Written(fs[1..]);
      ValueOfBits(f.v, f.n);
      hide ToBits, Value;
      var bits := Written(fs) + rest;
      assert bits[..f.n] == ToBits(f.v, f.n) && bits[f.n..] == tail + rest;
      FieldsReadBack(fs[1..], rest);
      assert Widths(fs)[1..] == Widths(fs[1..]);
    }
  }

  lemma {:induction false} WrittenPush(fs: seq<Field>, f: Field)
    ensures Written(fs + [f]) == Written(fs) + ToBits(f.v, f.n) && Values(fs + [f]) == Values(fs) + [f.v]
    decreases |fs|
  {
    hide ToBits;
    if fs == [] {
      assert [f][1..] == [] && Written([f]) == ToBits(f.v, f.n) + [];
      assert [] + ToBits(f.v, f.n) == ToBits(f.v, f.n) && [] + [f] == [f];
    } else {
      WrittenPush(fs[1..], f);
      assert (fs + [f])[1..] == fs[1..] + [f];
      Assoc(ToBits(fs[0].v, fs[0].n), Written(fs[1..]), ToBits(f.v, f.n));
    }
  }

  lemma ReadNext(fs: seq<Field>, i: int, rest: seq<bool>)
    requires Writable(fs) && 0 <= i < |fs|
    ensures var bits := Written(fs[i..]) + rest; var n := fs[i].n;
      |bits| >= n && Value(bits[..n]) == fs[i].v && bits[n..] == Written(fs[i + 1..]) + rest
    ensures Values(fs[..i + 1]) == Values(fs[..i]) + [fs[i].v]
  {
    ValueOfBits(fs[i].v, fs[i].n);
    WrittenPush(fs[..i], fs[i]);
    hide ToBits, Value, Pow2;
    assert fs[i..][1..] == fs[i + 1..] && fs[..i + 1] == fs[..i] + [fs[i]];
    var a, t := ToBits(fs[i].v, fs[i].n), Written(fs[i + 1..]);
    assert Written(fs[i..]) == a + t;
    Assoc(a, t, rest);
  }

  /**
   * Fields put through the write buffer, with the output area emptied wherever the caller likes, closed with padding
   * and handed to a reader: successive reads of the same widths return every value.
   */
  method FieldsThrough(fs: seq<Field>, reuse: seq<bool>) returns (vs: seq<int>)
    requires |reuse| == |fs| && Writable(fs)
    ensures vs == Values(fs)
  {
    hide BitWriter.Valid, BitWriter.Contents, AheadOf, ToBits, Pow2, Value, Written, Values, ByteBits;
    var out, pad := WriteFields(fs, reuse);
    var r := new BitReader();
    r.Supply(out);
    assert fs[0..] == fs && fs[..0] == [];
    NoFields();
    vs := [];
    assert r.Ahead() == Written(fs[0..]) + Zeros(pad);
    for i := 0 to |fs|
      invariant r.Valid() && r.Ahead() == Written(fs[i..]) + Zeros(pad) && vs == Values(fs[..i])
    {
      ReadNext(fs, i, Zeros(pad));
      var ok, v := r.GetBits(fs[i].n);
      vs := vs + [v];
    }
    assert fs[..|fs|] == fs;
  }

  lemma NoFields()
    ensures Written([]) == [] && Values([]) == [] && forall s: seq<bool> :: [] + s == s
  {
  }

  /** All bytes handed over, those of a reused output area and the last ones. */
  method WriteFields(fs: seq<Field>, reuse: seq<bool>) returns (out: seq<byte>, ghost pad: nat)
    requires |reuse| == |fs| && Writable(fs)
    ensures ByteBits(out) == Written(fs) + Zeros(pad)
  {
    hide BitWriter.Valid, BitWriter.Contents, ToBits, Pow2, Written, Values, ByteBits;
    var w := new BitWriter();
    out := [];
    NoFields();
    assert fs[..0] == [];
    for i := 0 to |fs|
      invariant fresh(w) && w.Valid() && w.drained == out && w.Contents() == Written(fs[..i])
    {
      if reuse[i] {
        out := out + w.zbits;
        w.Reuse();
      }
      WrittenPush(fs[..i], fs[i]);
      assert fs[..i + 1] == fs[..i] + [fs[i]];
      w.Put(fs[i].n, fs[i].v);
    }
    assert fs[..|fs|] == fs;
    pad := w.FinishWrite();
    out := out + w.zbits;
  }
}
