/** Which inputs are streams: the parser goes through exactly these, and says so of the others as soon as it must. */
module StreamExact {
  import opened Bits
  import opened BitIO
  import opened Rotations
  import opened MoveToFront
  import opened GenerateMtf
  import opened DecodeMachine
  import opened BlockFormat
  import opened SymbolRoundTrip
  import opened StreamDecoding
  import opened BlockGrammar
  import opened ParserExact
  import opened Passages

  // ---------- the first four bytes ----------

  /** May v be byte k of a stream: "BZh" and a digit from 1 to 9? */
  predicate StartByte(k: nat, v: int) {
    if k < 3 then v == STREAM_MAGIC[k] else k == 3 ==> HDR_0 + 1 <= v <= HDR_0 + 9
  }

  lemma {:induction false} NeverMagic(st: State, bits: seq<bool>)
    requires Sane(st) && !st.Magic? && !st.MagicError?
    ensures !Exec(st, bits).st.Magic? && !Exec(st, bits).st.MagicError?
    decreases |bits|
  {
    if !Halted(st) && |bits| >= Need(st) {
      var v := Value(bits[..Need(st)]);
      AdvanceNotMagic(st, v);
      hide Advance, Sane, Need, Value;
      NeverMagic(Advance(st, v), bits[Need(st)..]);
    }
  }

  lemma AdvanceNotMagic(st: State, v: int)
    requires Sane(st) && !Halted(st) && !st.Magic? && v >= 0
    ensures !Advance(st, v).Magic? && !Advance(st, v).MagicError?
  {
    hide TryCode, AfterMapping, AfterSelector, AfterLength, CheckLength;
    if st.CodeStart? || st.CodeMore? { TryNotMagic(st, v); }
    TablesNotMagic(st, v);
  }

  lemma TryNotMagic(st: State, v: int)
    requires Sane(st) && (st.CodeStart? || st.CodeMore?) && v >= 0
    ensures !Advance(st, v).Magic? && !Advance(st, v).MagicError?
  {
    hide Feed, Unmap, Used, LimitAt, BaseAt, SymbolAt, Least;
  }

  lemma TablesNotMagic(st: State, v: int)
    requires Sane(st) && !Halted(st) && v >= 0
    ensures !AdvanceTables(st, v).Magic? && !AdvanceTables(st, v).MagicError?
  {
    hide Settle, Used, Unselect;
  }

  lemma {:induction false} ThroughNotMagic(st: State, bits: seq<bool>)
    requires Sane(st) && !st.BlockDone? && !st.Magic? && !st.MagicError?
    ensures !Through(st, bits).st.MagicError?
    decreases |bits|
  {
    NeverMagic(st, bits);
    hide Exec, Sane;
    var e := Exec(st, bits);
    if e.st.BlockDone? {
      ExecShrinks(st, bits);
      ThroughNotMagic(Onward(e.st), e.bits);
    }
  }

  lemma ThroughByte(st: State, fed: seq<byte>)
    requires Sane(st) && !Halted(st) && Need(st) == 8 && fed != [] && !Advance(st, fed[0]).BlockDone?
    ensures Through(st, ByteBits(fed)) == Through(Advance(st, fed[0]), ByteBits(fed[1..]))
  {
    hide Exec, Sane, Advance, ToBits, ByteBits, Need;
    Word32();
    ByteBitsFirst(fed);
    ExecField(st, fed[0], ByteBits(fed[1..]));
    ThroughAgain(st, ByteBits(fed), Advance(st, fed[0]), ByteBits(fed[1..]));
  }

  /** One of these bytes, standing at place k, is wrong in the header. */
  ghost predicate WrongFrom(fed: seq<byte>, k: nat)
    decreases |fed|
  {
    fed != [] && k <= 3 && (!StartByte(k, fed[0]) || WrongFrom(fed[1..], k + 1))
  }

  lemma {:induction false} WrongAt(fed: seq<byte>, k: nat)
    ensures WrongFrom(fed, k) <==> exists i: nat :: i < |fed| && k + i <= 3 && !StartByte(k + i, fed[i])
    decreases |fed|
  {
    hide StartByte;
    if fed != [] && k <= 3 {
      WrongAt(fed[1..], k + 1);
      if i: nat :| i < |fed[1..]| && k + 1 + i <= 3 && !StartByte(k + 1 + i, fed[1..][i]) {
        assert fed[1..][i] == fed[i + 1] && !StartByte(k + (i + 1), fed[i + 1]);
      }
      if !StartByte(k, fed[0]) { assert !StartByte(k + 0, fed[0]); }
      if i: nat :| i < |fed| && k + i <= 3 && !StartByte(k + i, fed[i]) {
        if i > 0 { assert fed[i] == fed[1..][i - 1] && !StartByte(k + 1 + (i - 1), fed[1..][i - 1]); }
      }
    }
  }

  lemma MagicStep(k: nat, v: byte)
    requires k <= 3
    ensures Sane(Magic(k)) && Need(Magic(k)) == 8
    ensures var st := Advance(Magic(k), v);
      if !StartByte(k, v) then st == MagicError else if k < 3 then st == Magic(k + 1) else st == BlockHeader(v - HDR_0, 0)
    ensures Sane(Advance(Magic(k), v))
  {
  }

  lemma {:induction false} MagicFrom(fed: seq<byte>, k: nat)
    requires k <= 3
    ensures Through(Magic(k), ByteBits(fed)).st.MagicError? <==> WrongFrom(fed, k)
    decreases |fed|
  {
    if fed == [] {
      assert Exec(Magic(k), []) == Paused(Magic(k), []);
    } else {
      hide Through, ByteBits, StartByte, Advance, Sane, Need, Exec;
      MagicStep(k, fed[0]);
      ThroughByte(Magic(k), fed);
      var st, rest := Advance(Magic(k), fed[0]), ByteBits(fed[1..]);
      if !StartByte(k, fed[0]) {
        ThroughStays(st, rest);
      } else if k < 3 {
        MagicFrom(fed[1..], k + 1);
      } else {
        ThroughNotMagic(st, rest);
      }
    }
  }

  /** An input is no stream at all exactly when one of its first four bytes is wrong. */
  lemma MagicExact(fed: seq<byte>)
    ensures Passed(fed).st.MagicError? <==> exists k: nat :: k < |fed| && k <= 3 && !StartByte(k, fed[k])
  {
    hide Through, ByteBits, StartByte, WrongFrom;
    MagicFrom(fed, 0);
    WrongAt(fed, 0);
    if i: nat :| i < |fed| && 0 + i <= 3 && !StartByte(0 + i, fed[i]) {
      assert i <= 3 && !StartByte(i, fed[i]);
    }
    if k: nat :| k < |fed| && k <= 3 && !StartByte(k, fed[k]) {
      assert 0 + k <= 3 && !StartByte(0 + k, fed[k]);
    }
  }

  /** A wrong start is found before any block. */
  lemma MagicNoBlocks(fed: seq<byte>)
    ensures Passed(fed).st.MagicError? ==> Passed(fed).blocks == []
  {
    hide Exec, ByteBits;
    var e := Exec(Magic(0), ByteBits(fed));
    if e.st.BlockDone? { ThroughNotMagic(Onward(e.st), e.bits); }
  }

  // ---------- whole streams ----------

  ghost predicate AllLegal(xs: seq<Laid>, level: int) {
    forall i :: 0 <= i < |xs| ==> Legal(xs[i], level)
  }

  ghost function LaidAll(xs: seq<Laid>, level: int): seq<bool>
    requires AllLegal(xs, level)
    decreases |xs|
  {
    if xs == [] then [] else LaidBits(xs[0]) + LaidAll(xs[1..], level)
  }

  ghost function ParsedFrom(xs: seq<Laid>): seq<Parsed> {
    seq(|xs|, i requires 0 <= i < |xs| => Parsed(xs[i].b.h, xs[i].l))
  }

  /** The bits are a stream: the header, legal blocks of its level, the trailer; and something behind it. */
  ghost predicate StreamSpells(xs: seq<Laid>, level: int, crc: int, bits: seq<bool>, rest: seq<bool>) {
    && 1 <= level <= 9 && 0 <= crc < WORD && AllLegal(xs, level)
    && bits == StreamHead(level) + (LaidAll(xs, level) + (StreamTail(crc) + rest))
  }

  lemma LaidFirst(x: Laid, more: seq<Laid>, level: int)
    requires Legal(x, level) && AllLegal(more, level)
    ensures AllLegal([x] + more, level) && LaidAll([x] + more, level) == LaidBits(x) + LaidAll(more, level)
    ensures ParsedFrom([x] + more) == [Parsed(x.b.h, x.l)] + ParsedFrom(more)
  {
    hide Legal, LaidBits;
    assert ([x] + more)[1..] == more;
  }

  /** One block of a passage that gets to the end of the stream, or that end. */
  lemma NextAccepted(level: int, bits: seq<bool>, p: Passage) returns (done: bool, x: Laid, tail: seq<bool>)
    requires Through(BlockHeader(level, 0), bits) == p && p.st.StreamEnd?
    ensures done ==> p.blocks == [] && 0 <= p.st.crc < WORD && bits == StreamTail(p.st.crc) + p.bits
    ensures !done ==> Legal(x, level) && bits == LaidBits(x) + tail && |tail| < |bits|
    ensures !done ==> var q := Through(BlockHeader(level, 0), tail); p == Passage([Parsed(x.b.h, x.l)] + q.blocks, q.st, q.bits)
  {
    var st := BlockHeader(level, 0);
    var e := Exec(st, bits);
    ThroughOnce(st, bits);
    hide Exec, StreamTail, Legal, LaidBits, Through, LegalTables, GoodSymbols;
    tail := e.bits;
    if e.st.BlockDone? {
      done := false;
      ExecShrinks(st, bits);
      x := AcceptedIsLegal(level, bits, e);
      LegalLevel(x, level);
    } else {
      done := true;
      x := *;
      ThroughEnds(st, bits, e);
      EndExact(level, bits, p.st.crc, p.bits);
    }
  }

  lemma {:induction false} BlocksAccepted(level: int, bits: seq<bool>, p: Passage) returns (xs: seq<Laid>)
    requires Through(BlockHeader(level, 0), bits) == p && p.st.StreamEnd?
    ensures AllLegal(xs, level) && ParsedFrom(xs) == p.blocks && 0 <= p.st.crc < WORD
    ensures bits == LaidAll(xs, level) + (StreamTail(p.st.crc) + p.bits)
    decreases |bits|
  {
    hide Exec, StreamTail, Legal, LaidBits, Through, LegalTables, GoodSymbols;
    var done, x, tail := NextAccepted(level, bits, p);
    if done {
      xs := [];
      assert [] + (StreamTail(p.st.crc) + p.bits) == StreamTail(p.st.crc) + p.bits;
    } else {
      var more := BlocksAccepted(level, tail, Through(BlockHeader(level, 0), tail));
      xs := [x] + more;
      LaidFirst(x, more, level);
      LegalLevel(x, level);
      Assoc(LaidBits(x), LaidAll(more, level), StreamTail(p.st.crc) + p.bits);
    }
  }

  lemma ThroughEnds(st: State, bits: seq<bool>, e: Paused)
    requires Sane(st) && !st.BlockDone? && Exec(st, bits) == e && !e.st.BlockDone?
    ensures Through(st, bits) == Passage([], e.st, e.bits)
  {
    hide Exec, Sane;
  }

  lemma LegalLevel(x: Laid, level: int)
    requires Legal(x, level)
    ensures x.b.h.level == level && LegalTables(x) && GoodSymbols(PlanOf(x.b), x.syms)
  {
    hide LegalTables, Used, Findable, FeedAll;
  }

  lemma {:induction false} BlocksDriven(level: int, xs: seq<Laid>, crc: int, rest: seq<bool>)
    requires AllLegal(xs, level) && 0 <= crc < WORD
    ensures Through(BlockHeader(level, 0), LaidAll(xs, level) + (StreamTail(crc) + rest)) == Passage(ParsedFrom(xs), StreamEnd(crc), rest)
    decreases |xs|
  {
    hide Exec, StreamTail, Legal, LaidBits;
    var st, end := BlockHeader(level, 0), StreamTail(crc) + rest;
    if xs == [] {
      TailParses(level, crc, rest);
      assert [] + end == end;
    } else {
      var x, more := xs[0], xs[1..];
      LegalLevel(x, level);
      BlocksDriven(level, more, crc, rest);
      LegalIsAccepted(x, level, LaidAll(more, level) + end);
      Assoc(LaidBits(x), LaidAll(more, level), end);
      assert ParsedFrom(xs) == [Parsed(x.b.h, x.l)] + ParsedFrom(more);
    }
  }

  /** Four bytes lead out of the stream header. */
  lemma StartEnds(bits: seq<bool>, e: Paused) returns (level: int, rest: seq<bool>)
    requires Ends(Magic(0), bits, e)
    ensures 1 <= level <= 9 && bits == StreamHead(level) + rest && Ends(BlockHeader(level, 0), rest, e)
  {
    hide Ends, ToBits, Bytes;
    var a, s := EndsByte(Magic(0), bits, e);
    NotFromError(Advance(Magic(0), a), s, e);
    var b, t := EndsByte(Magic(1), s, e);
    NotFromError(Advance(Magic(1), b), t, e);
    var c, u := EndsByte(Magic(2), t, e);
    NotFromError(Advance(Magic(2), c), u, e);
    var d;
    d, rest := EndsByte(Magic(3), u, e);
    NotFromError(Advance(Magic(3), d), rest, e);
    level := d - HDR_0;
    BytesFour(STREAM_MAGIC + [HDR_0 + level]);
    FourSections(ToBits(a, 8), ToBits(b, 8), ToBits(c, 8), ToBits(d, 8), rest);
  }

  /**
   * The parser goes through to the end exactly on streams: with these blocks, this checksum and this rest if and only
   * if the bits are the header, legal blocks that stand for those, the trailer with the checksum, and the rest.
   */
  lemma StreamExactly(bits: seq<bool>, ps: seq<Parsed>, crc: int, rest: seq<bool>)
    ensures Through(Magic(0), bits) == Passage(ps, StreamEnd(crc), rest)
       <==> exists xs, level :: StreamSpells(xs, level, crc, bits, rest) && ParsedFrom(xs) == ps
  {
    hide Exec, StreamHead, StreamTail, AllLegal, LaidAll, ParsedFrom;
    if Through(Magic(0), bits) == Passage(ps, StreamEnd(crc), rest) {
      var e := Exec(Magic(0), bits);
      assert Ends(Magic(0), bits, e);
      hide Through;
      var level, t := StartEnds(bits, e);
      HeadParses(level, t);
      var xs := BlocksAccepted(level, t, Passage(ps, StreamEnd(crc), rest));
      assert StreamSpells(xs, level, crc, bits, rest);
    }
    if xs, level :| StreamSpells(xs, level, crc, bits, rest) && ParsedFrom(xs) == ps {
      HeadParses(level, LaidAll(xs, level) + (StreamTail(crc) + rest));
      BlocksDriven(level, xs, crc, rest);
    }
  }

  /** Once the parser has found an error, nothing that may follow makes the input a stream. */
  lemma ErrorIsFinal(fed: seq<byte>, more: seq<byte>, xs: seq<Laid>, level: int, crc: int, rest: seq<bool>)
    requires Passed(fed).st.DataError? || Passed(fed).st.MagicError?
    ensures !StreamSpells(xs, level, crc, ByteBits(fed + more), rest)
  {
    hide Through, StreamSpells, ByteBits, ParsedFrom;
    var q := PassedMore(fed, more);
    StreamExactly(ByteBits(fed + more), ParsedFrom(xs), crc, rest);
  }
}
