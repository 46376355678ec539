/** The FAAD bit reader: two look-ahead words over a byte buffer, refining a cursor into a zero-padded list of bits. */
module FaadBits {
  import opened Bits
  import opened BitIO
  import opened Rotations

  // ---------- the list of bits ----------

  function ByteAt(buf: seq<byte>, i: nat): (c: byte) {
    if i < |buf| then buf[i] else 0
  }

  /** Bit p of the buffer, most significant first; beyond the end all bits are zero. */
  ghost function BitAt(buf: seq<byte>, p: nat): bool {
    ToBits(ByteAt(buf, p / 8), 8)[p % 8]
  }

  ghost function Stretch(buf: seq<byte>, pos: nat, n: nat): (s: seq<bool>)
    ensures |s| == n
  {
    seq(n, i requires 0 <= i < n => BitAt(buf, pos + i))
  }

  lemma StretchJoin(buf: seq<byte>, pos: nat, n: nat, m: nat)
    ensures Stretch(buf, pos, n + m) == Stretch(buf, pos, n) + Stretch(buf, pos + n, m)
  {
    hide BitAt;
  }

  /** Two reads in a row give the digits one longer read would have given. */
  lemma ReadsJoin(buf: seq<byte>, pos: nat, n: nat, m: nat)
    ensures Value(Stretch(buf, pos, n + m)) == Value(Stretch(buf, pos, n)) * Pow2(m) + Value(Stretch(buf, pos + n, m))
  {
    StretchJoin(buf, pos, n, m);
    hide Stretch, Value;
    ValueJoin(Stretch(buf, pos, n), Stretch(buf, pos + n, m));
  }

  lemma BitBeyond(buf: seq<byte>, p: nat)
    requires p >= 8 * |buf|
    ensures !BitAt(buf, p)
  {
    ZeroBits(8);
  }

  /** Beyond the end of the buffer every read gives zero. */
  lemma {:induction false} ReadsZeroBeyond(buf: seq<byte>, pos: nat, n: nat)
    requires pos >= 8 * |buf|
    ensures Value(Stretch(buf, pos, n)) == 0
    decreases n
  {
    if n > 0 {
      ReadsZeroBeyond(buf, pos, n - 1);
      BitBeyond(buf, pos + n - 1);
      hide BitAt;
      assert Stretch(buf, pos, n)[..n - 1] == Stretch(buf, pos, n - 1);
    }
  }

  /** Within the buffer the bits are those of its bytes in order. */
  lemma {:induction false} StretchIsBytes(buf: seq<byte>, k: nat)
    requires k <= |buf|
    ensures Stretch(buf, 0, 8 * k) == ByteBits(buf[..k])
    decreases k
  {
    if k > 0 {
      StretchIsBytes(buf, k - 1);
      OneMoreByte(buf, k - 1);
    } else {
      assert buf[..0] == [];
    }
  }

  lemma OneMoreByte(buf: seq<byte>, k: nat)
    requires k < |buf| && Stretch(buf, 0, 8 * k) == ByteBits(buf[..k])
    ensures Stretch(buf, 0, 8 * (k + 1)) == ByteBits(buf[..k + 1])
  {
    hide Stretch, ByteBits, ToBits;
    ByteBitsPush(buf[..k], buf[k]);
    StretchJoin(buf, 0, 8 * k, 8);
    ByteStretch(buf, k);
    assert buf[..k + 1] == buf[..k] + [buf[k]];
  }

  lemma ByteStretch(buf: seq<byte>, i: nat)
    ensures Stretch(buf, 8 * i, 8) == ToBits(ByteAt(buf, i), 8)
  {
    hide ToBits, ByteAt;
    var s, t := Stretch(buf, 8 * i, 8), ToBits(ByteAt(buf, i), 8);
    forall j | 0 <= j < 8 ensures s[j] == t[j] {
      assert s[j] == BitAt(buf, 8 * i + j);
      assert (8 * i + j) / 8 == i && (8 * i + j) % 8 == j;
    }
  }

  /** The value of n bits read at a position inside the buffer. */
  lemma ReadsInside(buf: seq<byte>, pos: nat, n: nat)
    requires pos + n <= 8 * |buf|
    ensures Stretch(buf, pos, n) == ByteBits(buf)[pos..pos + n]
  {
    hide Stretch, ByteBits;
    StretchIsBytes(buf, |buf|);
    assert buf[..|buf|] == buf;
    var rest := 8 * |buf| - pos - n;
    StretchJoin(buf, 0, pos, n + rest);
    StretchJoin(buf, pos, n, rest);
  }

  // ---------- words ----------

  function FromBytes(a: byte, b: byte, c: byte, d: byte): (w: int)
    ensures 0 <= w < WORD
  {
    ((a * 256 + b) * 256 + c) * 256 + d
  }

  /** Word k of the zero-padded buffer. */
  function WordAt(buf: seq<byte>, k: nat): (w: int)
    ensures 0 <= w < WORD
  {
    FromBytes(ByteAt(buf, 4 * k), ByteAt(buf, 4 * k + 1), ByteAt(buf, 4 * k + 2), ByteAt(buf, 4 * k + 3))
  }

  /** getdword: four bytes, the first one most significant. */
  function GetDword(buf: seq<byte>, k: nat): (w: int)
    requires 4 * k + 4 <= |buf|
    ensures w == WordAt(buf, k)
  {
    FromBytes(buf[4 * k], buf[4 * k + 1], buf[4 * k + 2], buf[4 * k + 3])
  }

  /** getdword_n: only the first n bytes of a word; the missing ones are zero. */
  function GetDwordN(buf: seq<byte>, k: nat, n: nat): (w: int)
    requires n <= 3 && (n > 0 ==> 4 * k + n <= |buf|)
    ensures n == Rest(buf, k) ==> w == WordAt(buf, k)
  {
    if n == 3 then FromBytes(buf[4 * k], buf[4 * k + 1], buf[4 * k + 2], 0)
    else if n == 2 then FromBytes(buf[4 * k], buf[4 * k + 1], 0, 0)
    else if n == 1 then FromBytes(buf[4 * k], 0, 0, 0)
    else 0
  }

  /** How many bytes there are from word k on. */
  function Rest(buf: seq<byte>, k: nat): (n: nat) {
    if |buf| < 4 * k then 0 else |buf| - 4 * k
  }

  lemma WordBits(buf: seq<byte>, k: nat)
    ensures ToBits(WordAt(buf, k), 32) == Stretch(buf, 32 * k, 32)
  {
    hide ToBits, Stretch, ByteAt;
    FromBytesBits(ByteAt(buf, 4 * k), ByteAt(buf, 4 * k + 1), ByteAt(buf, 4 * k + 2), ByteAt(buf, 4 * k + 3));
    WordStretch(buf, k);
  }

  lemma WordStretch(buf: seq<byte>, k: nat)
    ensures Stretch(buf, 32 * k, 32) == ToBits(ByteAt(buf, 4 * k), 8) + ToBits(ByteAt(buf, 4 * k + 1), 8)
                                        + ToBits(ByteAt(buf, 4 * k + 2), 8) + ToBits(ByteAt(buf, 4 * k + 3), 8)
  {
    hide ToBits, Stretch, ByteAt;
    ByteStretch(buf, 4 * k);
    ByteStretch(buf, 4 * k + 1);
    ByteStretch(buf, 4 * k + 2);
    ByteStretch(buf, 4 * k + 3);
    StretchJoin(buf, 32 * k, 8, 8);
    StretchJoin(buf, 32 * k, 16, 8);
    StretchJoin(buf, 32 * k, 24, 8);
  }

  lemma FromBytesBits(a: byte, b: byte, c: byte, d: byte)
    ensures ToBits(FromBytes(a, b, c, d), 32) == ToBits(a, 8) + ToBits(b, 8) + ToBits(c, 8) + ToBits(d, 8)
  {
    hide ToBits;
    Word32();
    BitsJoin(a, b, 8, 8);
    BitsJoin(a * 256 + b, c, 16, 8);
    BitsJoin((a * 256 + b) * 256 + c, d, 24, 8);
  }

  // ---------- looking at bits ----------

  /** The low bits of the first word and all of the second. */
  ghost function Window(a: int, b: int, left: nat): (s: seq<bool>)
    ensures |s| == left + 32
  {
    ToBits(a, left) + ToBits(b, 32)
  }

  /** The window is the stretch of bits at the cursor. */
  lemma WindowIs(buf: seq<byte>, k: nat, left: nat)
    requires left <= 32
    ensures Window(WordAt(buf, k), WordAt(buf, k + 1), left) == Stretch(buf, 32 * (k + 1) - left, left + 32)
  {
    var w, pos := WordAt(buf, k), 32 * (k + 1) - left;
    BitsSplit(w, 32 - left, left);
    WordBits(buf, k);
    WordBits(buf, k + 1);
    StretchJoin(buf, 32 * k, 32 - left, left);
    StretchJoin(buf, pos, left, 32);
    hide ToBits, Stretch, WordAt, Pow2;
    assert ToBits(w, 32)[32 - left..] == ToBits(w, left);
    assert Stretch(buf, 32 * k, 32)[32 - left..] == Stretch(buf, pos, left);
  }

  /** Bits that are all in the first word: shifted up to drop the used ones, then down. */
  lemma ShowNear(a: int, b: int, left: nat, n: nat)
    requires 1 <= n <= left <= 32 && 0 <= a < WORD
    ensures Shr(Shl(a, 32 - left) % WORD, 32 - n) == Value(Window(a, b, left)[..n])
  {
    Word32();
    var y := Shl(a, 32 - left) % WORD;
    var v := Shr(y, 32 - n);
    BitsMod(Shl(a, 32 - left), 32, 32);
    ShlBits(a, 0, left, 32 - left);
    BitsSplit(y, n, 32 - n);
    QuotientBound(y, n, 32 - n);
    ValueOfBits(v, n);
    hide ToBits, Pow2, Value, Shl;
    assert ToBits(y, 32)[..n] == ToBits(v, n);
    assert ToBits(y, 32)[..n] == ToBits(a, left)[..n];
    assert Window(a, b, left)[..n] == ToBits(a, left)[..n];
  }

  lemma QuotientBound(y: int, n: nat, m: nat)
    requires 0 <= y < Pow2(n + m)
    ensures 0 <= y / Pow2(m) < Pow2(n)
  {
    Pow2Add(n, m);
    hide Pow2;
    var p, q, d := Pow2(n), Pow2(m), y / Pow2(m);
    assert y == d * q + y % q;
    assert d >= p ==> d * q >= p * q;
  }

  /** Bits that reach into the second word: the rest of the first one moved up, the head of the second below it. */
  lemma ShowFar(a: int, b: int, left: nat, m: nat)
    requires left <= 31 && 1 <= m <= 32 && 0 <= b < WORD && left + m <= 32
    ensures Shl(a % Pow2(left), m) + Shr(b, 32 - m) == Value(Window(a, b, left)[..left + m])
  {
    Word32();
    BitsMod(a, left, left);
    HeadBits(b, m);
    hide ToBits, Pow2, Value, Shl, Shr;
    TwoParts(a, b, left, m, a % Pow2(left), Shr(b, 32 - m));
  }

  lemma HeadBits(b: int, m: nat)
    requires 1 <= m <= 32 && 0 <= b < WORD
    ensures 0 <= Shr(b, 32 - m) < Pow2(m) && ToBits(b, 32)[..m] == ToBits(Shr(b, 32 - m), m)
  {
    Word32();
    BitsSplit(b, m, 32 - m);
    QuotientBound(b, m, 32 - m);
    hide ToBits, Pow2;
  }

  lemma TwoParts(a: int, b: int, left: nat, m: nat, hi: int, lo: int)
    requires m <= 32 && 0 <= hi < Pow2(left) && 0 <= lo < Pow2(m)
    requires ToBits(hi, left) == ToBits(a, left) && ToBits(lo, m) == ToBits(b, 32)[..m]
    ensures Shl(hi, m) + lo == Value(Window(a, b, left)[..left + m])
  {
    hide ToBits, Pow2, Value, Shl;
    ShlBits(hi, lo, left, m);
    ShlRange(hi, left, lo, m);
    ValueOfBits(Shl(hi, m) + lo, left + m);
    assert Window(a, b, left)[..left + m] == ToBits(a, left) + ToBits(b, 32)[..m];
  }

  // ---------- the reader ----------

  class Bitfile {
    var bufa: int
    var bufb: int
    var bitsLeft: int
    var bufferSize: int
    var bytesLeft: int
    var error: int
    var tail: nat  // in words from the start of the buffer
    var buffer: seq<byte>

    /** Two words of the buffer are held, the next one to come is at the tail. */
    ghost predicate Valid()
      reads this
    {
      && error == 0 && bufferSize == |buffer| > 0 && 0 <= bitsLeft <= 32 && tail >= 2
      && bufa == WordAt(buffer, tail - 2) && bufb == WordAt(buffer, tail - 1) && bytesLeft == Rest(buffer, tail)
    }

    /** Where the next bit is read. */
    ghost function Cursor(): (pos: nat)
      requires Valid()
      reads this
    {
      32 * (tail - 1) - bitsLeft
    }

    constructor ()
    {
      bufa, bufb, bitsLeft, bufferSize, bytesLeft, error, tail, buffer := 0, 0, 0, 0, 0, 0, 0, [];
    }

    /** Word w, as far as the buffer goes. */
    method Fetch(w: nat) returns (tmp: int)
      requires bytesLeft == Rest(buffer, w)
      modifies this`bytesLeft
      ensures tmp == WordAt(buffer, w) && bytesLeft == Rest(buffer, w + 1)
    {
      hide WordAt;
      if bytesLeft >= 4 {
        tmp := GetDword(buffer, w);
        bytesLeft := bytesLeft - 4;
      } else {
        tmp := GetDwordN(buffer, w, bytesLeft);
        bytesLeft := 0;
      }
    }

    /** faad_initbits; an empty buffer only raises the error flag. */
    method InitBits(source: seq<byte>)
      modifies this
      ensures source != [] ==> Valid() && Cursor() == 0 && buffer == source
      ensures source == [] ==> error == 1 && buffer == old(buffer) && bitsLeft == old(bitsLeft) && tail == old(tail)
    {
      hide WordAt;
      if |source| == 0 {
        error := 1;
        return;
      }
      buffer := source;
      bufferSize := |source|;
      bytesLeft := |source|;
      bufa := Fetch(0);
      bufb := Fetch(1);
      tail := 2;
      bitsLeft := 32;
      error := 0;
    }

    /** faad_showbits: the value of the next bits, which stay unread. */
    method ShowBits(bits: int) returns (v: int)
      requires Valid() && (1 <= bits <= 31 || (bits == 32 && bitsLeft > 0))
      ensures v == Value(Stretch(buffer, Cursor(), bits))
    {
      hide WordAt, Shl, Shr, Pow2, Value, Stretch;
      WindowIs(buffer, tail - 2, bitsLeft);
      StretchJoin(buffer, Cursor(), bits, bitsLeft + 32 - bits);
      assert Window(bufa, bufb, bitsLeft)[..bits] == Stretch(buffer, Cursor(), bits);
      if bits <= bitsLeft {
        ShowNear(bufa, bufb, bitsLeft, bits);
        return Shr(Shl(bufa, 32 - bitsLeft) % WORD, 32 - bits);
      }
      var more := bits - bitsLeft;
      ShowFar(bufa, bufb, bitsLeft, more);
      return Shl(bufa % Pow2(bitsLeft), more) + Shr(bufb, 32 - more);
    }

    /** faad_flushbits_ex: the second word moves up and the next one is fetched. */
    method FlushBitsEx(bits: int)
      requires Valid() && bitsLeft <= bits <= 32
      modifies this`bufa, this`bufb, this`bitsLeft, this`bytesLeft, this`tail
      ensures Valid() && Cursor() == old(Cursor()) + bits
    {
      hide WordAt;
      bufa := bufb;
      var tmp := Fetch(tail);
      bufb := tmp;
      tail := tail + 1;
      bitsLeft := bitsLeft + (32 - bits);
    }

    /** faad_flushbits: the cursor moves on. */
    method FlushBits(bits: int)
      requires Valid() && 0 <= bits <= 32
      modifies this`bufa, this`bufb, this`bitsLeft, this`bytesLeft, this`tail
      ensures Valid() && Cursor() == old(Cursor()) + bits
    {
      hide WordAt;
      if error != 0 { return; }
      if bits < bitsLeft { bitsLeft := bitsLeft - bits; } else { FlushBitsEx(bits); }
    }

    /** faad_getbits: the value of the n bits at the cursor, which moves behind them. */
    method GetBits(n: int) returns (ret: int)
      requires Valid() && (0 <= n <= 31 || (n == 32 && bitsLeft > 0))
      modifies this`bufa, this`bufb, this`bitsLeft, this`bytesLeft, this`tail
      ensures Valid() && Cursor() == old(Cursor()) + n && ret == Value(Stretch(buffer, old(Cursor()), n))
    {
      hide WordAt;
      if n == 0 { return 0; }
      ret := ShowBits(n);
      FlushBits(n);
    }

    /** faad_get1bit. */
    method Get1Bit() returns (r: int)
      requires Valid()
      modifies this`bufa, this`bufb, this`bitsLeft, this`bytesLeft, this`tail
      ensures Valid() && Cursor() == old(Cursor()) + 1 && r == if BitAt(buffer, old(Cursor())) then 1 else 0
    {
      hide WordAt, BitAt;
      OneBit(buffer, Cursor());
      if bitsLeft > 0 {
        WindowIs(buffer, tail - 2, bitsLeft);
        TopBit(bufa, bufb, bitsLeft);
        StretchJoin(buffer, Cursor(), 1, bitsLeft + 31);
        bitsLeft := bitsLeft - 1;
        r := Shr(bufa, bitsLeft) % 2;
        return;
      }
      r := GetBits(1);
    }

    /** faad_get_processed_bits: the cursor, in 32 bits. */
    method GetProcessedBits() returns (n: int)
      requires Valid()
      ensures n == Cursor() % WORD
    {
      return (8 * (4 * tail - 4) - bitsLeft) % WORD;
    }

    /** faad_byte_align: on to the next byte boundary, by fewer than eight bits. */
    method ByteAlign() returns (skipped: int)
      requires Valid()
      modifies this`bufa, this`bufb, this`bitsLeft, this`bytesLeft, this`tail
      ensures Valid() && 0 <= skipped < 8 && Cursor() == old(Cursor()) + skipped && Cursor() % 8 == 0
    {
      hide WordAt;
      AlignFacts(tail, bitsLeft);
      var remainder := (32 - bitsLeft) % 8;
      if remainder != 0 {
        FlushBits(8 - remainder);
        return 8 - remainder;
      }
      return 0;
    }

    /** faad_rewindbits: back to the first bit. */
    method RewindBits()
      requires Valid()
      modifies this`bufa, this`bufb, this`bitsLeft, this`bytesLeft, this`tail
      ensures Valid() && Cursor() == 0
    {
      hide WordAt;
      bytesLeft := bufferSize;
      bufa := Fetch(0);
      bufb := Fetch(1);
      bitsLeft := 32;
      tail := 2;
    }

    /** faad_resetbits: to any bit, also beyond the end of the buffer. */
    method ResetBits(bits: nat)
      requires Valid()
      modifies this`bufa, this`bufb, this`bitsLeft, this`bytesLeft, this`tail, this`error
      ensures Valid() && Cursor() == bits
    {
      hide WordAt;
      var words, remainder := bits / 32, bits % 32;
      bytesLeft := if bufferSize < words * 4 then 0 else bufferSize - words * 4;
      bufa := Fetch(words);
      bufb := Fetch(words + 1);
      bitsLeft := 32 - remainder;
      tail := words + 2;
      error := 0;
    }

    /** faad_getbitbuffer: the next bits as bytes, the last one filled up with zeros. */
    method GetBitBuffer(bits: nat) returns (s: seq<byte>)
      requires Valid()
      modifies this`bufa, this`bufb, this`bitsLeft, this`bytesLeft, this`tail
      ensures Valid() && Cursor() == old(Cursor()) + bits
      ensures |s| == (bits + 7) / 8 && ByteBits(s) == Stretch(buffer, old(Cursor()), bits) + Zeros(8 * |s| - bits)
    {
      hide WordAt, Stretch, ByteBits, Zeros, Value;
      ghost var pos := Cursor();
      s := [];
      NothingRead(buffer, pos);
      for i := 0 to bits / 8
        invariant Valid() && Cursor() == pos + 8 * i && |s| == i && ByteBits(s) == Stretch(buffer, pos, 8 * i)
      {
        var temp := GetBits(8);
        StretchByte(buffer, pos, i, s, 0, temp);
        s := s + [temp];
      }
      var remainder := bits % 8;
      if remainder != 0 {
        var temp := GetBits(remainder);
        StretchByte(buffer, pos, bits / 8, s, 8 - remainder, temp);
        s := s + [Shl(temp, 8 - remainder) % 256];
      } else {
        NoPadding(s);
      }
    }
  }

  lemma AlignFacts(tail: nat, left: int)
    requires tail >= 2 && 0 <= left <= 32
    ensures (32 * (tail - 1) - left) % 8 == (32 - left) % 8
  {
    var q, r := (32 - left) / 8, (32 - left) % 8;
    DivUnique(32 * (tail - 1) - left, 8, q + 4 * (tail - 2), r);
  }

  lemma NoPadding(s: seq<byte>)
    ensures ByteBits(s) + Zeros(0) == ByteBits(s)
  {
  }

  lemma NothingRead(buf: seq<byte>, pos: nat)
    ensures ByteBits([]) == Stretch(buf, pos, 0)
  {
  }

  /** One more byte, its last k bits padding. */
  lemma StretchByte(buf: seq<byte>, pos: nat, i: nat, s: seq<byte>, k: nat, v: int)
    requires ByteBits(s) == Stretch(buf, pos, 8 * i) && k < 8 && v == Value(Stretch(buf, pos + 8 * i, 8 - k))
    ensures 0 <= v && 0 <= Shl(v, k) < 256
    ensures ByteBits(s + [Shl(v, k)]) == Stretch(buf, pos, 8 * i + 8 - k) + Zeros(k)
    ensures k == 0 ==> Shl(v, k) == v && ByteBits(s + [v]) == Stretch(buf, pos, 8 * i + 8)
  {
    Word32();
    hide ToBits, Value, Stretch, ByteBits, Pow2, Shl;
    var t := Stretch(buf, pos + 8 * i, 8 - k);
    ShlZero(v);
    BitsOfValue(t);
    ValueBound(t);
    ShlRange(v, 8 - k, 0, k);
    ShlBits(v, 0, 8 - k, k);
    ZeroBits(k);
    StretchJoin(buf, pos, 8 * i, 8 - k);
    ByteBitsPush(s, Shl(v, k));
    Assoc(Stretch(buf, pos, 8 * i), t, Zeros(k));
    assert k == 0 ==> Stretch(buf, pos, 8 * i + 8) + Zeros(k) == Stretch(buf, pos, 8 * i + 8);
  }

  lemma ShlZero(v: int)
    ensures Shl(v, 0) == v
    ensures forall k: nat :: Shl(0, k) == 0
  {
  }

  lemma OneBit(buf: seq<byte>, pos: nat)
    ensures Value(Stretch(buf, pos, 1)) == if BitAt(buf, pos) then 1 else 0
    ensures Stretch(buf, pos, 1) == [BitAt(buf, pos)]
  {
    hide BitAt;
    assert Stretch(buf, pos, 1)[..0] == [];
  }

  lemma TopBit(a: int, b: int, left: nat)
    requires 1 <= left
    ensures Window(a, b, left)[..1] == [Shr(a, left - 1) % 2 == 1]
  {
    BitsSplit(a, 1, left - 1);
    assert ToBits(Shr(a, left - 1), 1) == [] + [Shr(a, left - 1) % 2 == 1];
  }
}
