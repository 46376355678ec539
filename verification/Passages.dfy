/** What a decompressor part-way through its input knows about the whole of it. */
module Passages {
  import opened BitIO
  import opened Rotations
  import opened GenerateMtf
  import opened DecodeMachine
  import opened BlockFormat
  import opened RunLength
  import opened SymbolRoundTrip
  import opened CompressBlock
  import opened Compressor
  import opened StreamDecoding

  // ---------- where the decompressor stands ----------

  /** The block handed over and not yet closed. */
  ghost function Current(st: State): seq<Parsed> {
    if st.BlockDone? then [Parsed(st.h, st.l)] else []
  }

  /** The passage over all the input. */
  ghost function Passed(fed: seq<byte>): Passage {
    Through(Magic(0), ByteBits(fed))
  }

  /**
   * The blocks closed so far, the one being written and whatever the saved state will still find in the bits ahead
   * are the passage over all the input.
   */
  ghost predicate Tracks(fed: seq<byte>, closed: seq<Parsed>, st: State, ahead: seq<bool>) {
    Sane(st) && Passed(fed) == Joined(closed + Current(st), Through(Onward(st), ahead))
  }

  ghost function Joined(blocks: seq<Parsed>, q: Passage): Passage {
    Passage(blocks + q.blocks, q.st, q.bits)
  }

  lemma TracksStart()
    ensures Tracks([], [], Magic(0), [])
  {
    assert Through(Magic(0), []) == Passage([], Magic(0), []);
  }

  /** More input arrives. */
  lemma TracksFed(fed: seq<byte>, closed: seq<Parsed>, st: State, ahead: seq<bool>, more: seq<byte>)
    requires Tracks(fed, closed, st, ahead)
    ensures Tracks(fed + more, closed, st, ahead + ByteBits(more))
  {
    hide Through, ByteBits, Sane, Current;
    ByteBitsJoin(fed, more);
    var c, q := ByteBits(more), Through(Onward(st), ahead);
    OnwardSane(st);
    ThroughResumes(Magic(0), ByteBits(fed), c);
    ThroughResumes(Onward(st), ahead, c);
    Assoc(closed + Current(st), q.blocks, Through(q.st, q.bits + c).blocks);
  }

  lemma OnwardSane(st: State)
    requires Sane(st)
    ensures Sane(Onward(st)) && !Onward(st).BlockDone? && Sane(Magic(0))
  {
  }

  /** The parser runs as far as it can. */
  lemma TracksParse(fed: seq<byte>, closed: seq<Parsed>, st: State, ahead: seq<bool>, e: Paused)
    requires Tracks(fed, closed, st, ahead) && !st.BlockDone? && e == Exec(st, ahead)
    ensures Tracks(fed, closed, e.st, e.bits)
    ensures e.st != st ==> |e.bits| < |ahead|
  {
    ExecShrinks(st, ahead);
    ThroughOnce(st, ahead);
    hide Through, Exec, Sane, ByteBits;
    var q := Through(Onward(e.st), e.bits);
    assert closed + [] == closed;
    Assoc(closed, Current(e.st), q.blocks);
    assert [] + q.blocks == q.blocks;
  }

  lemma ThroughOnce(st: State, ahead: seq<bool>)
    requires Sane(st) && !st.BlockDone?
    ensures var e := Exec(st, ahead); var q := Through(Onward(e.st), e.bits);
      Through(st, ahead) == Passage(Current(e.st) + q.blocks, q.st, q.bits)
  {
    var e := Exec(st, ahead);
    hide Sane;
    if e.st.BlockDone? {
      hide Exec;
    } else {
      assert Exec(e.st, e.bits) == e;
      hide Exec;
    }
  }

  /** The block being written is closed. */
  lemma TracksClose(fed: seq<byte>, closed: seq<Parsed>, st: State, ahead: seq<bool>)
    requires Tracks(fed, closed, st, ahead) && st.BlockDone?
    ensures Tracks(fed, closed + [Parsed(st.h, st.l)], Onward(st), ahead)
  {
    hide Through, ByteBits;
    assert closed + [Parsed(st.h, st.l)] + [] == closed + [Parsed(st.h, st.l)];
  }

  // ---------- clean streams ----------

  ghost predicate BlockClean(p: Parsed, c: Crc) {
    !p.h.randomised && BlockData(p).Data? && p.h.crc == c.finalise(Fold(c.update, c.seed, BlockData(p).out))
  }

  ghost predicate AllClean(ps: seq<Parsed>, c: Crc) {
    forall i :: 0 <= i < |ps| ==> BlockClean(ps[i], c)
  }

  ghost function ParsedCombined(ps: seq<Parsed>, c: Crc): int {
    if ps == [] then 0 else c.combine(ParsedCombined(ps[..|ps| - 1], c), ps[|ps| - 1].h.crc)
  }

  /** Nothing the decompressor checks is wrong: the format, the blocks and both kinds of checksum. */
  ghost predicate Clean(p: Passage, c: Crc) {
    && AllClean(p.blocks, c) && !p.st.DataError? && !p.st.MagicError?
    && (p.st.StreamEnd? ==> p.st.crc == ParsedCombined(p.blocks, c))
  }

  lemma AddClean(ps: seq<Parsed>, p: Parsed, c: Crc)
    ensures AllClean(ps + [p], c) <==> AllClean(ps, c) && BlockClean(p, c)
    ensures ParsedCombined(ps + [p], c) == c.combine(ParsedCombined(ps, c), p.h.crc)
    ensures AllData(ps).Data? && BlockData(p).Data? ==> AllData(ps + [p]) == Data(AllData(ps).out + BlockData(p).out)
    ensures AllData(ps + [p]).Data? ==> AllData(ps).Data? && BlockData(p).Data?
  {
    hide BlockClean, BlockData;
    var q := ps + [p];
    assert q[..|ps|] == ps && q[|ps|] == p;
    if AllClean(q, c) {
      forall i | 0 <= i < |ps| ensures BlockClean(ps[i], c) { assert q[i] == ps[i]; }
    }
  }

  // ---------- what is wrong with an input ----------

  datatype Status = Ok | EndOfStream | DataFault | MagicFault | SequenceFault | RandomisedBlock

  /** What a block that is not clean is reported as. */
  ghost function BlockFault(p: Parsed): Status {
    if p.h.randomised then RandomisedBlock else DataFault
  }

  /** The first block that is not clean, if there is one, decides. */
  ghost function BlocksDiagnosis(ps: seq<Parsed>, c: Crc): (v: Status)
    ensures v == Ok || v == DataFault || v == RandomisedBlock
  {
    if ps == [] then Ok else if BlockClean(ps[0], c) then BlocksDiagnosis(ps[1..], c) else BlockFault(ps[0])
  }

  /** What is to be said of an input: of its first bad block, else of the state its passage ends in. */
  ghost function Diagnosis(p: Passage, c: Crc): Status {
    var b := BlocksDiagnosis(p.blocks, c);
    if b != Ok then b
    else
      match p.st
      case DataError => DataFault
      case MagicError => MagicFault
      case StreamEnd(crc) => if crc == ParsedCombined(p.blocks, c) then EndOfStream else DataFault
      case _ => Ok
  }

  lemma {:induction false} BlocksDiagnosisOk(ps: seq<Parsed>, c: Crc)
    ensures BlocksDiagnosis(ps, c) == Ok <==> AllClean(ps, c)
    decreases |ps|
  {
    hide BlockClean;
    if ps != [] {
      BlocksDiagnosisOk(ps[1..], c);
      if AllClean(ps[1..], c) && BlockClean(ps[0], c) {
        forall i | 0 <= i < |ps| ensures BlockClean(ps[i], c) {
          if i > 0 { assert ps[1..][i - 1] == ps[i]; }
        }
      }
    }
  }

  /** Nothing is wrong exactly with a clean input. */
  lemma DiagnosisClean(p: Passage, c: Crc)
    ensures Clean(p, c) <==> Diagnosis(p, c) == Ok || Diagnosis(p, c) == EndOfStream
    ensures Diagnosis(p, c) == EndOfStream <==> Clean(p, c) && p.st.StreamEnd?
  {
    hide AllClean, ParsedCombined;
    BlocksDiagnosisOk(p.blocks, c);
  }

  lemma {:induction false} FirstBad(closed: seq<Parsed>, p: Parsed, rest: seq<Parsed>, c: Crc)
    requires AllClean(closed, c) && !BlockClean(p, c)
    ensures BlocksDiagnosis(closed + [p] + rest, c) == BlockFault(p)
    decreases |closed|
  {
    hide BlockClean;
    if closed == [] {
      assert ([] + [p] + rest)[0] == p;
    } else {
      assert closed[1..] + [p] + rest == (closed + [p] + rest)[1..] && (closed + [p] + rest)[0] == closed[0];
      assert AllClean(closed[1..], c);
      FirstBad(closed[1..], p, rest, c);
    }
  }

  /** A block that is not clean, behind clean ones, is what is wrong with the input. */
  lemma BlockSpoils(fed: seq<byte>, closed: seq<Parsed>, st: State, ahead: seq<bool>, c: Crc)
    requires Tracks(fed, closed, st, ahead) && st.BlockDone? && AllClean(closed, c)
    ensures !BlockClean(Parsed(st.h, st.l), c) ==> Diagnosis(Passed(fed), c) == BlockFault(Parsed(st.h, st.l))
  {
    OnwardSane(st);
    hide Through, ByteBits, BlockClean, Sane, AllClean;
    if !BlockClean(Parsed(st.h, st.l), c) {
      FirstBad(closed, Parsed(st.h, st.l), Through(Onward(st), ahead).blocks, c);
    }
  }

  /** In a halted state that is not a block, the passage ends. */
  lemma EndsPassage(fed: seq<byte>, closed: seq<Parsed>, st: State, ahead: seq<bool>)
    requires Tracks(fed, closed, st, ahead) && !st.BlockDone? && (Halted(st) || |ahead| < Need(st))
    ensures Passed(fed) == Passage(closed, st, ahead)
  {
    assert Exec(st, ahead) == Paused(st, ahead);
    assert Through(st, ahead) == Passage([], st, ahead);
    hide Through, Exec, ByteBits;
    assert closed + [] == closed && closed + [] + [] == closed;
  }

  /** Every part of a clean input, cut off anywhere, is clean as far as it goes. */
  lemma CleanPrefix(a: seq<byte>, more: seq<byte>, c: Crc)
    requires Clean(Passed(a + more), c)
    ensures Clean(Passed(a), c)
  {
    hide Clean, Passed;
    var q := PassedMore(a, more);
    CleanCut(Passed(a), q, c);
  }

  lemma PassedMore(a: seq<byte>, more: seq<byte>) returns (q: Passage)
    ensures var p := Passed(a);
      Passed(a + more) == Passage(p.blocks + q.blocks, q.st, q.bits) && (Halted(p.st) ==> q.blocks == [] && q.st == p.st)
  {
    hide Through, ByteBits;
    ByteBitsJoin(a, more);
    q := RestOfPassage(ByteBits(a), ByteBits(more));
  }

  lemma RestOfPassage(a: seq<bool>, c: seq<bool>) returns (q: Passage)
    ensures var p := Through(Magic(0), a); Through(Magic(0), a + c) == Passage(p.blocks + q.blocks, q.st, q.bits)
    ensures var p := Through(Magic(0), a); Halted(p.st) ==> q.blocks == [] && q.st == p.st
  {
    hide Through, ByteBits;
    var p := Through(Magic(0), a);
    ThroughResumes(Magic(0), a, c);
    q := Through(p.st, p.bits + c);
    if Halted(p.st) {
      ThroughStays(p.st, p.bits + c);
    }
  }

  lemma CleanCut(p: Passage, q: Passage, c: Crc)
    requires Clean(Passage(p.blocks + q.blocks, q.st, q.bits), c)
    requires Halted(p.st) ==> q.blocks == [] && q.st == p.st
    ensures Clean(p, c)
  {
    hide BlockClean;
    forall i | 0 <= i < |p.blocks| ensures BlockClean(p.blocks[i], c) {
      assert (p.blocks + q.blocks)[i] == p.blocks[i];
    }
    assert p.blocks + [] == p.blocks;
  }

  lemma ThroughStays(st: State, bits: seq<bool>)
    requires Sane(st) && Halted(st) && !st.BlockDone?
    ensures Through(st, bits) == Passage([], st, bits)
  {
    ExecStops(st, bits);
    hide Exec;
  }

  /** The data of the first blocks is the beginning of the data of all. */
  lemma {:induction false} DataPrefix(a: seq<Parsed>, b: seq<Parsed>, c: Crc)
    requires AllData(a + b).Data?
    ensures AllData(a).Data? && AllData(a).out <= AllData(a + b).out
    decreases |b|
  {
    if b == [] {
      assert a + b == a;
    } else {
      var b', p := b[..|b| - 1], b[|b| - 1];
      assert a + b == (a + b') + [p];
      AddClean(a + b', p, c);
      hide AllData, BlockData;
      DataPrefix(a, b', c);
    }
  }

  /** Clean blocks have data. */
  lemma {:induction false} CleanData(ps: seq<Parsed>, c: Crc)
    requires AllClean(ps, c)
    ensures AllData(ps).Data?
    decreases |ps|
  {
    if ps != [] {
      var m := |ps| - 1;
      assert BlockClean(ps[m], c);
      hide BlockData, Fold;
      forall i | 0 <= i < m ensures BlockClean(ps[..m][i], c) {}
      CleanData(ps[..m], c);
    }
  }

  // ---------- streams the compressor makes ----------

  lemma {:induction false} ParsedClean(rs: seq<BlockRec>, level: int, c: Crc)
    requires GoodRecs(rs, level, c)
    ensures AllClean(ParsedAll(rs, level), c) && ParsedCombined(ParsedAll(rs, level), c) == Combined(rs, c)
    decreases |rs|
  {
    if rs == [] {
      hide GoodRecs;
    } else {
      var init, r := rs[..|rs| - 1], rs[|rs| - 1];
      assert r.crc == c.finalise(Fold(c.update, c.seed, r.data)) by { hide GoodRec, Fold; }
      hide GoodRecs, GoodRec, RecsBits, RecBits, UsedMarks, GoodBlock, ColumnSymbols, BlockData, ParsedAll, Fold, ParsedCombined, AllClean, AllData;
      LastRec(rs, level, c);
      ParsedClean(init, level, c);
      RecData(r, level);
      AddClean(ParsedAll(init, level), ParsedOf(r, level), c);
    }
  }

  /** A complete stream: the bytes hold the blocks, the trailer with the combined checksum, and padding. */
  ghost predicate IsStream(stream: seq<byte>, rs: seq<BlockRec>, level: int, c: Crc) {
    && 1 <= level <= 9 && GoodRecs(rs, level, c) && 0 <= Combined(rs, c) < WORD
    && exists pad :: 0 <= pad < 8 && ByteBits(stream) == StreamBits(rs, level, c) + StreamTail(Combined(rs, c)) + Zeros(pad)
  }

  /** The whole stream passes every check, and decodes to the data. */
  lemma StreamClean(stream: seq<byte>, rs: seq<BlockRec>, level: int, c: Crc)
    requires IsStream(stream, rs, level, c)
    ensures var p := Passed(stream);
      Clean(p, c) && p.st == State.StreamEnd(Combined(rs, c)) && AllData(p.blocks) == Data(RecsData(rs))
  {
    hide GoodRecs, StreamBits, StreamTail, Zeros, Through, ByteBits, Combined, RecsData, ParsedAll, AllData, AllClean, ParsedCombined;
    var pad :| 0 <= pad < 8 && ByteBits(stream) == StreamBits(rs, level, c) + StreamTail(Combined(rs, c)) + Zeros(pad);
    StreamDecodes(rs, level, c, Combined(rs, c), pad);
    ParsedClean(rs, level, c);
  }
}
