/** The decompressor: parsing, opening blocks in either memory mode, writing them out, and the checks on the way. */
module Decompressor {
  import opened Permutations
  import opened BitIO
  import opened Rotations
  import opened Counting
  import opened InverseBwt
  import opened SegmentedList
  import opened DecodeMachine
  import opened BlockFormat
  import opened RunLength
  import opened BlockOutput
  import opened ColumnStore
  import opened CompressBlock
  import opened Compressor
  import opened StreamDecoding
  import opened ParserState
  import opened BlockParser
  import opened Passages
  import opened StreamExact

  class Decompressor {
    const crc: Crc
    const parser: DState
    var writer: BlockWriter?  // while a block is being written
    var calculatedCombinedCRC: int
    ghost var st: State       // where the parser stands
    ghost var fed: seq<byte>
    ghost var closed: seq<Parsed>
    ghost var whole: seq<byte>    // the data of the closed blocks
    ghost var partial: seq<byte>  // what has been written of the current one
    ghost var delivered: seq<byte>

    ghost function Footprint(): (s: set<object>)
      reads this`writer
    {
      if writer == null then {} else {writer, writer.src, writer.src.tt, writer.src.ll16, writer.src.ll4, writer.src.cftab}
    }

    /** What writing a block changes. */
    ghost function Writers(): (s: set<object>)
      reads this`writer
    {
      if writer == null then {} else {writer, writer.src}
    }

    /** The bits ahead of the parser are what is left of all the input, and of that no byte more than needed is held. */
    ghost predicate Tracking()
      reads this`st, this`fed, this`closed, parser.bs
    {
      && parser.bs.Valid() && Sane(st) && Sized(st) && Tracks(fed, closed, st, parser.bs.Ahead())
      && Lean(parser.bs.bsLive, st) && EndOf(parser.bs.input, fed)
    }

    /** The parser has saved what belongs to its state. */
    ghost predicate Parsing()
      reads this`st, parser, parser.Owned(), parser.mtf
    {
      && parser.Inv() && Matches(parser.Now(parser.saved), st)
      && (!Halted(st) ==> parser.Holding())
    }

    ghost predicate Closed()
      reads this`closed, this`calculatedCombinedCRC, this`whole
    {
      AllClean(closed, crc) && calculatedCombinedCRC == ParsedCombined(closed, crc) && AllData(closed) == Data(whole)
    }

    /** What the current block spells. */
    ghost function CurrentData(): Expanded
      reads this`st
    {
      if st.BlockDone? then BlockData(Parsed(st.h, st.l)) else Data([])
    }

    ghost predicate Writing()
      reads this`st, this`writer, this`partial, Footprint()
    {
      if !st.BlockDone? then writer == null && partial == []
      else
        && writer != null && writer.Valid() && writer.crcUpdate == crc.update && !st.h.randomised
        && CurrentData() == Before(partial, writer.Remaining())
        && writer.blockCRC == Fold(crc.update, crc.seed, partial)
    }

    ghost predicate Valid()
      reads this, parser, parser.bs, parser.mtf, parser.Owned(), Footprint()
    {
      Tracking() && Parsing() && Closed() && Writing() && delivered == whole + partial
    }

    /** Is the block being written complete? */
    predicate BlockFinished()
      reads this`writer, Writers()
    {
      writer != null && writer.Finished()
    }

    /** BZ2_bzDecompressInit. */
    constructor (small: bool, crc: Crc)
      ensures Valid() && fed == [] && delivered == [] && st == Magic(0) && this.crc == crc
      ensures fresh(parser) && fresh(parser.bs) && fresh(parser.Owned()) && fresh(Writers())
    {
      hide DState.Inv, Matches, AheadOf, Tracks, BlockData;
      TracksStart();
      this.crc, st, writer, calculatedCombinedCRC := crc, Magic(0), null, 0;
      fed, closed, whole, partial, delivered := [], [], [], [], [];
      parser := new DState(small);
      new;
      AtMagic(parser);
    }

    // ---------- parsing ----------

    /** The parser runs: on to a block, to the end, to an error or to the end of the input. */
    method Parse() returns (code: Code)
      requires Tracking() && Parsing() && !Halted(st)
      modifies this`st, parser, parser.bs, parser.Owned()
      ensures Tracking() && (code == Going || code == BlockReady || code == EndReached ==> Parsing())
      ensures code == Going ==> !Halted(st) && |parser.bs.Ahead()| < Need(st) && parser.bs.input == []
      ensures code == BlockReady ==> st.BlockDone? && |parser.bs.Ahead()| < |old(parser.bs.Ahead())|
      ensures code == BlockReady ==> Answers(code, parser.Now(parser.saved), st) && parser.store.Linked(parser.origPtr)
      ensures (code == EndReached <==> st.StreamEnd?) && (code == BadMagic <==> st.MagicError?) && (code == BadData <==> st.DataError?)
    {
      hide Tracks, Lean, EndOf, Matches, DState.Shape, Sized, Sane, AheadOf, Column.Linked, Column.Fits, Occ, Exec, Need;
      ghost var e, left := Exec(st, parser.bs.Ahead()), parser.bs.input;
      TracksParse(fed, closed, st, parser.bs.Ahead(), e);
      ghost var st1;
      code, st1 := parser.Decompress(st);
      EndOfEnd(parser.bs.input, left, fed);
      st := st1;
    }

    method OpenBlock()
      requires Tracking() && Parsing() && st.BlockDone? && !st.h.randomised && partial == []
      requires parser.store.Linked(parser.origPtr)
      modifies this`writer
      ensures Tracking() && Parsing() && Writing() && fresh(Writers())
    {
      hide Tracks, Lean, EndOf, BlockData, BlockWriter.Valid, BlockSource.Valid, Expand, AheadOf, Column.Linked, DState.Shape, Sane, Sized;
      SymbolMatches(parser.Now(parser.saved), st);
      var src := parser.store.Open(parser.origPtr);
      BlockDataIs(Parsed(st.h, st.l), src.block);
      writer := new BlockWriter(src, parser.saved.nblock, crc.update, crc.seed);
      NothingBefore(writer.Remaining());
      FoldEmpty(crc.update, crc.seed);
    }

    /** Writes as much of the current block as fits. */
    method WriteOut(space: nat) returns (out: seq<byte>, corrupt: bool)
      requires Valid() && st.BlockDone?
      modifies this`partial, this`delivered, Writers()
      ensures Valid() && delivered == old(delivered) + out && |out| <= space
      ensures if corrupt then CurrentData() == Damaged else |out| == space || BlockFinished()
      ensures BlockFinished() ==> CurrentData() == Data(partial)
    {
      hide Tracks, Lean, EndOf, Matches, DState.Shape, Sized, Sane, AheadOf, Layout, ListOf, Closed, BlockData, BlockWriter.Valid, BlockWriter.Remaining, Fold;
      ghost var before, p := writer.Remaining(), partial;
      out, corrupt := writer.Write(space);
      BeforeJoin(p, out, writer.Remaining());
      FoldJoin(crc.update, crc.seed, p, out);
      Assoc(whole, p, out);
      partial := partial + out;
      delivered := delivered + out;
      assert partial + [] == partial;
    }

    /** The checksum of what was written is the stored one. */
    predicate CrcMatches()
      reads this`writer, Writers(), parser`storedBlockCRC
    {
      writer != null && crc.finalise(writer.blockCRC) == parser.storedBlockCRC
    }

    lemma CheckBlock()
      requires Valid() && st.BlockDone? && BlockFinished() && CurrentData() == Data(partial)
      ensures if CrcMatches() then BlockClean(Parsed(st.h, st.l), crc) && crc.finalise(writer.blockCRC) == st.h.crc
              else Diagnosis(Passed(fed), crc) == DataFault
      ensures parser.bs.Valid()
    {
      hide Tracks, Lean, EndOf, BlockData, AllClean, ParsedCombined, AllData, BlockWriter.Valid, BlockWriter.Remaining, Fold, Clean, Diagnosis, Passed, Matches;
      hide DState.Shape, Sane, Sized, AheadOf, Layout, ListOf;
      BlockSpoils(fed, closed, st, parser.bs.Ahead(), crc);
      StoredCrc();
    }

    /** The stream's checksum is brought up to date, and the parser goes on to the next block. */
    method CloseBlock()
      requires Valid() && st.BlockDone? && CurrentData() == Data(partial) && BlockClean(Parsed(st.h, st.l), crc)
      requires crc.finalise(writer.blockCRC) == st.h.crc
      modifies this`st, this`writer, this`closed, this`whole, this`partial, this`calculatedCombinedCRC, parser`state
      ensures Valid() && st.BlockHeader? && writer == null
    {
      hide Tracks, Lean, EndOf, BlockData, BlockClean, AllClean, ParsedCombined, AllData, BlockWriter.Valid, BlockWriter.Remaining, Fold, Matches;
      hide DState.Shape, Sane, Sized, AheadOf, Layout, ListOf;
      ghost var p := Parsed(st.h, st.l);
      TracksClose(fed, closed, st, parser.bs.Ahead());
      AddClean(closed, p, crc);
      calculatedCombinedCRC := crc.combine(calculatedCombinedCRC, crc.finalise(writer.blockCRC));
      closed, whole, partial := closed + [p], whole + partial, [];
      assert whole + partial == whole;
      ToNextHeader();
    }

    lemma StoredCrc()
      requires Parsing() && st.BlockDone?
      ensures parser.storedBlockCRC == st.h.crc
    {
      SymbolMatches(parser.Now(parser.saved), st);
      hide Matches;
    }

    /** The parser goes on at the header of the next block. */
    method ToNextHeader()
      requires parser.bs.Valid() && Sized(st) && Parsing() && st.BlockDone? && Tracks(fed, closed, Onward(st), parser.bs.Ahead())
      requires Lean(parser.bs.bsLive, st) && EndOf(parser.bs.input, fed)
      modifies this`st, this`writer, parser`state
      ensures Tracking() && Parsing() && st.BlockHeader? && writer == null
    {
      hide Tracks, Lean, EndOf, Matches, DState.Shape, Sane, Sized, AheadOf, Layout, ListOf, Column.Fits, Occ;
      SymbolMatches(parser.Now(parser.saved), st);
      HeaderNext(st);
      st, writer := BlockHeader(st.h.level, 0), null;
      parser.state := X_BLKHDR_1;
      HeaderMatches(parser.Now(parser.saved), st);
    }

    /** The parser waits for input. */
    ghost predicate Starved()
      reads this`st, parser.bs
    {
      parser.bs.Valid() && Sane(st) && !Halted(st) && |parser.bs.Ahead()| < Need(st) && parser.bs.input == []
    }

    /** The stream is complete: all of it passed the checks, and its data has been delivered. */
    ghost predicate Complete()
      reads this, parser, parser.bs, parser.mtf, parser.Owned(), Footprint()
    {
      && Valid() && st.StreamEnd? && Clean(Passed(fed), crc)
      && Passed(fed) == Passage(closed, st, parser.bs.Ahead()) && AllData(closed) == Data(delivered)
    }

    /** What has been delivered is the data of the closed blocks and the beginning of that of the current one. */
    ghost predicate Delivering()
      reads this`st, this`fed, this`closed, this`calculatedCombinedCRC, this`whole, this`partial, this`delivered, parser.bs
    {
      && Tracking() && Closed() && delivered == whole + partial
      && (!st.BlockDone? ==> partial == []) && (CurrentData().Data? ==> partial <= CurrentData().out)
    }

    /** What a call's status says; full: the output space is used up. */
    ghost predicate Answer(status: Status, full: bool)
      reads this, parser, parser.bs, parser.mtf, parser.Owned(), Footprint()
    {
      match status
      case Ok => Valid() && if st.BlockDone? then full && !BlockFinished() else Starved()
      case EndOfStream => Complete()
      case SequenceFault => false
      case _ => Delivering() && Diagnosis(Passed(fed), crc) == status
    }

    /** The parser's half of a turn: on to the next block, or out with an answer. */
    method NextBlock() returns (stop: bool, status: Status)
      requires Valid() && !st.BlockDone? && !st.StreamEnd?
      modifies this`st, this`writer, parser, parser.bs, parser.Owned()
      ensures fed == old(fed) && delivered == old(delivered) && fresh(Writers())
      ensures if stop then Answer(status, false) else Valid() && st.BlockDone? && |parser.bs.Ahead()| < |old(parser.bs.Ahead())|
    {
      hide Tracks, Lean, EndOf, AllClean, ParsedCombined, AllData, BlockData, Clean, Diagnosis, Passed, BlockWriter.Valid, BlockWriter.Remaining, AheadOf, Sane, Sized;
      hide Parsing, Column.Linked, Need;
      stop, status := true, Ok;
      AtRest();
      var code := Parse();
      if code == BlockReady {
        RandomisedIs(code);
        if parser.blockRandomised {
          BlockSpoils(fed, closed, st, parser.bs.Ahead(), crc);
          return true, RandomisedBlock;
        }
        OpenBlock();
        stop := false;
        return;
      }
      EndsPassage(fed, closed, st, parser.bs.Ahead());
      EndDiagnosis(Passed(fed), crc);
      if code == BadMagic { return true, MagicFault; }
      if code == BadData { return true, DataFault; }
      if code == EndReached {
        StoredIs(code);
        if calculatedCombinedCRC != parser.storedCombinedCRC { return true, DataFault; }
        assert whole + [] == whole;
        return true, EndOfStream;
      }
    }

    lemma RandomisedIs(code: Code)
      requires Parsing() && Answers(code, parser.Now(parser.saved), st) && code == BlockReady
      ensures parser.blockRandomised == st.h.randomised
    {
      SymbolMatches(parser.Now(parser.saved), st);
      hide Matches;
    }

    lemma AtRest()
      requires Parsing()
      ensures (parser.state == X_OUTPUT <==> st.BlockDone?) && (parser.state == X_IDLE <==> st.StreamEnd?)
      ensures !st.DataError? && !st.MagicError?
    {
      RestLabels(parser.Now(parser.saved), st);
      hide Matches;
    }

    lemma StoredIs(code: Code)
      requires Parsing() && st.StreamEnd?
      ensures parser.storedCombinedCRC == st.crc
    {
      HeaderMatches(parser.Now(parser.saved), st);
      hide Matches;
    }

    /** The writer's half of a turn: the block goes out, and when it is complete it is closed. */
    method FinishBlock(space: nat) returns (stop: bool, status: Status, out: seq<byte>)
      requires Valid() && st.BlockDone?
      modifies this`st, this`writer, this`closed, this`whole, this`partial, this`delivered, this`calculatedCombinedCRC, parser`state, Writers()
      ensures fed == old(fed) && delivered == old(delivered) + out && |out| <= space && Writers() <= old(Writers())
      ensures if stop then Answer(status, |out| == space) else Valid() && st.BlockHeader?
      ensures parser.bs.Valid() && parser.bs.Ahead() == old(parser.bs.Ahead())
    {
      hide Tracking, Parsing, Closed, Writing, BlockData, BlockClean, Clean, Diagnosis, Passed, AheadOf, Sane, Sized, Need;
      var corrupt;
      stop, status := true, Ok;
      out, corrupt := WriteOut(space);
      CurrentSpoils();
      if corrupt { return true, DataFault, out; }
      if !BlockFinished() { return; }
      CheckBlock();
      if !CrcMatches() { return true, DataFault, out; }
      CloseBlock();
      stop := false;
    }

    /** A damaged block spoils the input. */
    lemma CurrentSpoils()
      requires Tracking() && Closed() && Writing() && st.BlockDone?
      ensures CurrentData() == Damaged ==> Diagnosis(Passed(fed), crc) == DataFault
      ensures parser.bs.Valid()
    {
      hide Clean, Passed, BlockData, Diagnosis, AllClean, ParsedCombined, AllData, BlockWriter.Valid, BlockWriter.Remaining, Fold, Tracks;
      BlockSpoils(fed, closed, st, parser.bs.Ahead(), crc);
    }

    /**
     * BZ2_bzDecompress, in any pieces, with any output space; input that uses a code no table has is taken as
     * damaged.  It terminates; it stops only for want of input, for want of space, at the end of a stream that
     * passed every check and whose data has all been delivered, or because of something in the input that is wrong.
     * After the end every call is refused.
     */
    method Decompress(next: seq<byte>, space: nat) returns (status: Status, out: seq<byte>)
      requires Valid()
      modifies this, parser, parser.bs, parser.Owned(), Writers()
      ensures fed == old(fed) + next && delivered == old(delivered) + out && |out| <= space
      ensures fresh(Writers() - old(Writers()))
      ensures status == SequenceFault <==> old(st).StreamEnd?
      ensures if status == SequenceFault then Valid() && st.StreamEnd? && out == [] else Answer(status, |out| == space)
    {
      hide Answer, Tracks, Lean, EndOf, Sized, Sane, Closed, Writing, Complete, Starved, AheadOf, ByteBits, Passed, Clean, Diagnosis, Matches, DState.Shape, Layout, ListOf;
      Feed(next);
      out, status := [], Ok;
      assert delivered + [] == delivered;
      AtRest();
      if parser.state == X_IDLE { return SequenceFault, out; }
      status, out := Drive(space);
    }

    /** The driver's loop. */
    method Drive(space: nat) returns (status: Status, out: seq<byte>)
      requires Valid() && !st.StreamEnd?
      modifies this, parser, parser.bs, parser.Owned(), Writers()
      ensures fed == old(fed) && delivered == old(delivered) + out && |out| <= space
      ensures fresh(Writers() - old(Writers())) && Answer(status, |out| == space) && status != SequenceFault
    {
      hide Parsing, Closed, Writing, Complete, Starved, AheadOf, Passed, Clean, Diagnosis, Tracks, Lean, EndOf, Sized, Sane;
      out, status := [], Ok;
      assert delivered + [] == delivered;
      var stop := false;
      while !stop
        invariant fed == old(fed) && delivered == old(delivered) + out && |out| <= space
        invariant if stop then Answer(status, |out| == space) else Valid() && !st.StreamEnd?
        invariant fresh(Writers() - old(Writers()))
        decreases !stop, if parser.bs.Valid() then |parser.bs.Ahead()| else 0
      {
        var o;
        stop, status, o := Turn(space - |out|);
        Assoc(old(delivered), out, o);
        out := out + o;
      }
    }

    /** One turn of the driver's loop. */
    method Turn(space: nat) returns (stop: bool, status: Status, out: seq<byte>)
      requires Valid() && !st.StreamEnd?
      modifies this, parser, parser.bs, parser.Owned(), Writers()
      ensures fed == old(fed) && delivered == old(delivered) + out && |out| <= space
      ensures fresh(Writers() - old(Writers()))
      ensures if stop then Answer(status, |out| == space)
              else Valid() && st.BlockDone? && |parser.bs.Ahead()| < |old(parser.bs.Ahead())|
    {
      hide Parsing, Closed, Writing, Complete, Starved, AheadOf, Passed, Clean, Diagnosis;
      out, status := [], Ok;
      assert delivered + [] == delivered;
      AtRest();
      if parser.state == X_OUTPUT {
        stop, status, out := FinishBlock(space);
        if stop { return; }
      }
      stop, status := NextBlock();
    }

    /** More input is made available. */
    method Feed(next: seq<byte>)
      requires Valid()
      modifies this`fed, parser.bs
      ensures Valid() && fed == old(fed) + next && parser.bs.Ahead() == old(parser.bs.Ahead()) + ByteBits(next)
    {
      hide Tracks, Lean, EndOf, Closed, BlockData, BlockWriter.Valid, BlockWriter.Remaining, AheadOf, ByteBits, Matches, Sane, Sized, Halted, Column.Fits, Occ, Fold, Layout, ListOf;
      TracksFed(fed, closed, st, parser.bs.Ahead(), next);
      EndOfJoin(parser.bs.input, fed, next);
      parser.bs.Supply(next);
      fed := fed + next;
    }
  }

  lemma AtMagic(p: DState)
    requires p.Inv() && p.Holding() && p.state == X_MAGIC_1
    ensures Matches(p.Now(p.saved), Magic(0)) && Sane(Magic(0)) && Sized(Magic(0))
  {
    HeaderMatches(p.Now(p.saved), Magic(0));
    hide Matches;
  }

  lemma HeaderNext(st: State)
    requires st.BlockDone? && Sized(st)
    ensures Sane(BlockHeader(st.h.level, 0)) && Sized(BlockHeader(st.h.level, 0))
    ensures forall live :: Lean(live, st) ==> Lean(live, BlockHeader(st.h.level, 0))
  {
  }

  lemma EndOfJoin(s: seq<byte>, t: seq<byte>, more: seq<byte>)
    requires EndOf(s, t)
    ensures EndOf(s + more, t + more)
  {
  }

  lemma BlockDataIs(p: Parsed, block: seq<byte>)
    requires 0 <= p.h.origPtr < |p.l| && StableOrder(p.l, StableOf(p.l)) && IsPerm(StableOf(p.l), |p.l|)
    requires block == Walk(p.l, StableOf(p.l), p.h.origPtr, |p.l|)
    ensures BlockData(p) == Expand(block)
  {
    hide Expand, StableOf, Walk;
  }

  // ---------- all slicings ----------

  lemma ValidDelivers(d: Decompressor)
    requires d.Valid()
    ensures d.Delivering()
  {
    hide Tracks, Lean, EndOf, AheadOf, AllData, AllClean, ParsedCombined, BlockData, BlockWriter.Valid, BlockWriter.Remaining, Fold, Sane, Sized, Matches, DState.Inv;
  }

  /** What has been delivered is the beginning of the data of all blocks of the input. */
  lemma DeliveredPrefix(d: Decompressor)
    requires d.Delivering()
    ensures AllData(Passed(d.fed).blocks).Data? ==> d.delivered <= AllData(Passed(d.fed).blocks).out
  {
    hide AllData, BlockData, AheadOf, Fold, Sane, Sized, Passed, Through;
    var st, q := d.st, Through(Onward(d.st), d.parser.bs.Ahead());
    if AllData(Passed(d.fed).blocks).Data? {
      DataPrefix(d.closed + Current(st), q.blocks, d.crc);
      if st.BlockDone? {
        AddClean(d.closed, Parsed(st.h, st.l), d.crc);
      } else {
        assert d.closed + [] == d.closed && d.whole + [] == d.whole;
      }
    }
  }

  /** Of a block that is not finished there is more to come. */
  lemma UnfinishedMore(d: Decompressor)
    requires d.Valid() && d.st.BlockDone? && !d.BlockFinished()
    ensures AllData(Passed(d.fed).blocks).Data? ==> |d.delivered| < |AllData(Passed(d.fed).blocks).out|
  {
    hide AllData, BlockData, AheadOf, BlockWriter.Valid, BlockWriter.Remaining, Fold, Sane, Sized, Passed, Through;
    var st, q := d.st, Through(Onward(d.st), d.parser.bs.Ahead());
    if AllData(Passed(d.fed).blocks).Data? {
      DataPrefix(d.closed + [Parsed(st.h, st.l)], q.blocks, d.crc);
      AddClean(d.closed, Parsed(st.h, st.l), d.crc);
      WriterDone(d.writer);
      Assoc(d.whole, d.partial, d.writer.Remaining().out);
    }
  }

  lemma WriterDone(w: BlockWriter)
    requires w.Valid()
    ensures w.Remaining() == Data([]) <==> w.Finished()
  {
    hide Expand, BlockSource.Valid;
    RemainingCases(w.stateOutCh, w.stateOutLen, w.nblockUsed, w.src.block);
  }

  /** Between blocks, everything delivered is the data of the closed ones. */
  lemma DeliveredClosed(d: Decompressor)
    requires d.Valid() && !d.st.BlockDone?
    ensures AllClean(d.closed, d.crc) && AllData(d.closed) == Data(d.delivered)
  {
    hide AllData, AllClean, ParsedCombined;
    assert d.whole + [] == d.whole;
  }

  /**
   * Whatever the input, its pieces and the output space, a call answers with the verdict on all the input there is,
   * unless the space ran out inside a block.
   */
  lemma AnswerIsDiagnosis(d: Decompressor, status: Status, full: bool)
    requires d.Answer(status, full)
    ensures var p := Passed(d.fed);
      || (status == Diagnosis(p, d.crc) && (status == Ok || status == EndOfStream ==> AllData(p.blocks) == Data(d.delivered)))
      || (status == Ok && full && d.Valid() && d.st.BlockDone? && !d.BlockFinished())
  {
    hide AllData, Passed, Clean, Diagnosis, AllClean, Decompressor.Tracking, Decompressor.Parsing, Decompressor.Closed, Decompressor.Writing;
    DiagnosisClean(Passed(d.fed), d.crc);
    if status == EndOfStream {
    } else if status == Ok && !d.st.BlockDone? {
      StarvedPassage(d);
      DeliveredClosed(d);
      EndDiagnosis(Passed(d.fed), d.crc);
    }
  }

  /** The answer of a call and the data delivered so far, against the diagnosis and the data of all the input there is. */
  lemma WholeAnswer(d: Decompressor, status: Status, full: bool)
    requires d.Answer(status, full)
    ensures var p := Passed(d.fed); var v := Diagnosis(p, d.crc);
      && (status != Ok || !full ==> v == status)
      && (status == EndOfStream || (status == Ok && !full) ==> AllData(p.blocks) == Data(d.delivered))
      && (AllData(p.blocks).Data? ==> d.delivered <= AllData(p.blocks).out)
      && (AllData(p.blocks).Data? && status == Ok && full ==>
            |d.delivered| < |AllData(p.blocks).out| || (v == Ok && d.delivered == AllData(p.blocks).out))
  {
    hide AllData, Passed, Clean, Diagnosis, AllClean, Decompressor.Valid, Decompressor.Delivering, Decompressor.Starved;
    AnswerIsDiagnosis(d, status, full);
    AnswerDelivers(d, status, full);
    DeliveredPrefix(d);
    if status == Ok && d.st.BlockDone? { UnfinishedMore(d); }
  }

  lemma AnswerDelivers(d: Decompressor, status: Status, full: bool)
    requires d.Answer(status, full)
    ensures d.Delivering() && (status == Ok ==> d.Valid())
  {
    hide Passed, Clean, Diagnosis, Decompressor.Valid, Decompressor.Delivering, Decompressor.Starved;
    if status == Ok || status == EndOfStream { ValidDelivers(d); }
  }

  lemma StarvedPassage(d: Decompressor)
    requires d.Valid() && !d.st.BlockDone? && d.Starved()
    ensures Passed(d.fed).blocks == d.closed && Passed(d.fed).st == d.st && !Halted(d.st)
  {
    hide AllData, Passed, Sane, AheadOf, BlockData, Need;
    EndsPassage(d.fed, d.closed, d.st, d.parser.bs.Ahead());
  }

  /** The answer that this is no stream is given exactly when one of the first four bytes is wrong. */
  lemma MagicAnswer(d: Decompressor, status: Status, full: bool)
    requires d.Answer(status, full)
    ensures status == MagicFault <==> exists k: nat :: k < |d.fed| && k <= 3 && !StartByte(k, d.fed[k])
  {
    MagicExact(d.fed);
    MagicNoBlocks(d.fed);
    hide StartByte, Passed, Clean, AllClean, AllData, Decompressor.Valid, Decompressor.Delivering, Decompressor.Starved;
    AnswerIsDiagnosis(d, status, full);
    if status == Ok && d.Valid() && d.st.BlockDone? { BlockOnPassage(d); }
    MagicDiagnosis(Passed(d.fed), d.crc);
  }

  lemma BlockOnPassage(d: Decompressor)
    requires d.Valid() && d.st.BlockDone?
    ensures Passed(d.fed).blocks != []
  {
    hide Passed, AheadOf, BlockData, Sane, Sized, AllData, Through;
  }

  lemma MagicDiagnosis(p: Passage, c: Crc)
    requires p.st.MagicError? ==> p.blocks == []
    ensures Diagnosis(p, c) == MagicFault <==> p.st.MagicError?
  {
    hide BlockClean, ParsedCombined;
  }

  /** The end is announced only of input that is a stream, whose blocks are those closed, with something behind it. */
  lemma EndIsStream(d: Decompressor, full: bool)
    requires d.Answer(EndOfStream, full)
    ensures d.st.StreamEnd? && d.parser.bs.Valid() && d.parser.bs.bsLive < 8 && EndOf(d.parser.bs.input, d.fed)
    ensures exists xs, level :: StreamSpells(xs, level, d.st.crc, ByteBits(d.fed), d.parser.bs.Ahead()) && ParsedFrom(xs) == d.closed
  {
    hide AllData, AheadOf, Clean, Through, Tracks, EndOf, Sane, Sized, StreamSpells, ParsedFrom, Decompressor.Parsing, Decompressor.Closed, Decompressor.Writing;
    StreamExactly(ByteBits(d.fed), d.closed, d.st.crc, d.parser.bs.Ahead());
  }

  /**
   * Fed a stream the compressor made, in any pieces and with any output space, no call reports a fault; what has
   * come out is always the beginning of the data; the end is announced exactly with all of it; and once all the
   * input is in, only output space that ran out before the data did keeps a call from announcing the end.
   */
  lemma EverySlicing(d: Decompressor, status: Status, full: bool, stream: seq<byte>, rs: seq<BlockRec>, level: int)
    requires d.Answer(status, full) && d.fed <= stream && IsStream(stream, rs, level, d.crc)
    ensures status == Ok || status == EndOfStream
    ensures d.delivered <= RecsData(rs)
    ensures status == EndOfStream ==> d.delivered == RecsData(rs)
    ensures status == Ok && d.fed == stream ==> full && |d.delivered| < |RecsData(rs)|
  {
    hide AllData, AheadOf, Decompressor.Closed, Decompressor.Writing, Passed, IsStream, RecsData, Combined, AllClean, ParsedCombined, Diagnosis;
    var more := stream[|d.fed|..];
    assert stream == d.fed + more;
    StreamClean(stream, rs, level, d.crc);
    CleanPrefix(d.fed, more, d.crc);
    DiagnosisClean(Passed(d.fed), d.crc);
    var q := PassedMore(d.fed, more);
    AnswerValid(d, status, full);
    ValidDelivers(d);
    DeliveredPrefix(d);
    if d.st.BlockDone? && !d.BlockFinished() { UnfinishedMore(d); }
    DataPrefix(Passed(d.fed).blocks, q.blocks, d.crc);
    if status == EndOfStream {
      assert d.closed + [] == d.closed;
    }
  }

  lemma AnswerValid(d: Decompressor, status: Status, full: bool)
    requires d.Answer(status, full) && Clean(Passed(d.fed), d.crc)
    ensures d.Valid() && (status == Ok || status == EndOfStream)
  {
    DiagnosisClean(Passed(d.fed), d.crc);
    hide Clean, Passed, Diagnosis, Decompressor.Valid;
  }

  /** Behind the end of a stream, all further input is left to the caller, to the byte. */
  lemma RestIsLeft(d: Decompressor, full: bool, stream: seq<byte>, extra: seq<byte>, rs: seq<BlockRec>, level: int)
    requires d.Answer(EndOfStream, full) && IsStream(stream, rs, level, d.crc) && d.fed == stream + extra
    ensures d.parser.bs.input == extra
  {
    EndFacts(d, full);
    hide *;
    var pad := StreamRest(stream, extra, rs, level, d.crc);
    HeldBits(d.parser.bs);
    LastPart(d.parser.bs.input, d.parser.bs.bsLive, d.parser.bs.Ahead(), pad, stream, extra);
  }

  lemma EndFacts(d: Decompressor, full: bool)
    requires d.Answer(EndOfStream, full)
    ensures d.parser.bs.Valid() && 0 <= d.parser.bs.bsLive < 8 && EndOf(d.parser.bs.input, d.fed)
    ensures Passed(d.fed).bits == d.parser.bs.Ahead()
  {
    hide AllData, AheadOf, Passed, Clean, Tracks, EndOf, Sane, Sized, Decompressor.Parsing, Decompressor.Closed, Decompressor.Writing;
  }

  lemma LastPart(s: seq<byte>, live: int, bits: seq<bool>, pad: nat, stream: seq<byte>, extra: seq<byte>)
    requires EndOf(s, stream + extra) && |bits| == live + 8 * |s| && 0 <= live < 8
    requires pad < 8 && bits == Zeros(pad) + ByteBits(extra)
    ensures s == extra
  {
    assert |bits| == pad + 8 * |extra|;
  }

  lemma HeldBits(r: BitReader)
    requires r.Valid()
    ensures |r.Ahead()| == r.bsLive + 8 * |r.input|
  {
  }

  /** What is behind a stream of the compressor stays unread but for its padding. */
  lemma StreamRest(stream: seq<byte>, extra: seq<byte>, rs: seq<BlockRec>, level: int, c: Crc) returns (pad: nat)
    requires IsStream(stream, rs, level, c)
    ensures pad < 8 && Passed(stream + extra).bits == Zeros(pad) + ByteBits(extra)
  {
    hide GoodRecs, StreamBits, StreamTail, Through, ByteBits, Combined, ParsedAll, AllData, RecsData, Zeros;
    pad :| 0 <= pad < 8 && ByteBits(stream) == StreamBits(rs, level, c) + StreamTail(Combined(rs, c)) + Zeros(pad);
    StreamDecodes(rs, level, c, Combined(rs, c), pad);
    ByteBitsJoin(stream, extra);
    ThroughResumes(Magic(0), ByteBits(stream), ByteBits(extra));
    ThroughStays(State.StreamEnd(Combined(rs, c)), Zeros(pad) + ByteBits(extra));
  }

  /** A finished compressor has delivered a stream of exactly the data it took in. */
  lemma CompressedIsStream(c: Compressor)
    requires c.Valid() && c.mode == Idle
    ensures IsStream(c.delivered, c.blocks, c.level, c.crc) && RecsData(c.blocks) == c.consumed
  {
    hide GoodRecs, StreamBits, StreamTail, RecsData, Combined, ByteBits, RunEncoder.Core, Separated;
    assert c.w.zbits[..c.stateOutPos] == c.w.zbits;
    assert Spell([]) == [] && c.consumed + [] == c.consumed && RecsData(c.blocks) + [] == RecsData(c.blocks);
  }

  /** Decompression undoes compression, however both sides were fed and drained. */
  lemma RoundTrip(c: Compressor, d: Decompressor, status: Status, full: bool)
    requires c.Valid() && c.mode == Idle && d.crc == c.crc
    requires d.Answer(status, full) && d.fed <= c.delivered
    ensures status == Ok || status == EndOfStream
    ensures d.delivered <= c.consumed
    ensures status == EndOfStream ==> d.delivered == c.consumed
    ensures status == Ok && d.fed == c.delivered ==> full && |d.delivered| < |c.consumed|
  {
    hide Compressor.Valid, Decompressor.Answer, IsStream;
    CompressedIsStream(c);
    EverySlicing(d, status, full, c.delivered, c.blocks, c.level);
  }

  /** What a passage that has ended says, when all blocks on it are clean. */
  lemma EndDiagnosis(p: Passage, c: Crc)
    requires AllClean(p.blocks, c)
    ensures p.st.DataError? ==> Diagnosis(p, c) == DataFault
    ensures p.st.MagicError? ==> Diagnosis(p, c) == MagicFault
    ensures p.st.StreamEnd? ==> Diagnosis(p, c) == if p.st.crc == ParsedCombined(p.blocks, c) then EndOfStream else DataFault
    ensures !p.st.DataError? && !p.st.MagicError? && !p.st.StreamEnd? ==> Diagnosis(p, c) == Ok
    ensures Clean(p, c) <==> Diagnosis(p, c) == Ok || Diagnosis(p, c) == EndOfStream
  {
    hide AllClean, ParsedCombined;
    BlocksDiagnosisOk(p.blocks, c);
  }
}
