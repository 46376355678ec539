/** One-call compression and decompression between buffers. */
module BuffToBuff {
  import opened Rotations
  import opened CompressBlock
  import opened Compressor
  import opened StreamDecoding
  import opened RunLength
  import opened Completion
  import opened Passages
  import opened Decompressor

  datatype Verdict = Fine | OutbuffFull | UnexpectedEof | CompressFault(r: Result) | DecompressFault(s: Status)

  /**
   * BZ2_bzBuffToBuffCompress.  Either dest is a whole stream of the source, or the space was too small and holds the
   * beginning of one.  A full buffer is reported as such except in one case: nothing to compress and no space at all
   * is a sequence error.
   */
  method Compress(source: seq<byte>, destLen: nat, blockSize100k: int, workFactor: int, crc: Crc)
    returns (verdict: Verdict, dest: seq<byte>, ghost rs: seq<BlockRec>)
    requires 1 <= blockSize100k <= 9 && 0 <= workFactor <= 250 && Wide(crc)
    ensures verdict == Fine || verdict == OutbuffFull || verdict == CompressFault(SequenceError)
    ensures verdict == Fine ==> |dest| <= destLen && IsStream(dest, rs, blockSize100k, crc) && RecsData(rs) == source
    ensures verdict != Fine ==> |dest| == destLen
    ensures verdict == OutbuffFull ==> Beginning(dest, source, blockSize100k, crc)
    ensures verdict == CompressFault(SequenceError) <==> source == [] && destLen == 0
  {
    hide Compressor.Valid, GoodRecs, Compressor.Whole, IsStream, Took, RecsData, Beginning, Compressor.Unfinished, Compressor.EmptyRL;
    var strm := new Compressor(blockSize100k, if workFactor == 0 then 30 else workFactor, crc);
    var ret, out := strm.Compress(Finish, source, destLen);
    dest, rs := out, strm.blocks;
    assert [] + out == out && [] + source == source;
    TookParts([], source, strm.consumed, strm.nextIn);
    if ret == FinishOk {
      Completable(strm, source);
      return OutbuffFull, dest, rs;
    }
    if ret != Result.StreamEnd {
      NeverDone(strm);
      return CompressFault(ret), dest, rs;
    }
    CompressedIsStream(strm);
    StreamNotEmpty(dest, rs, blockSize100k, crc);
    return Fine, dest, rs;
  }

  lemma TookParts(taken: seq<byte>, all: seq<byte>, consumed: seq<byte>, rest: seq<byte>)
    requires Took(taken, all, consumed, rest)
    ensures consumed + rest == taken + all
  {
  }

  lemma StreamNotEmpty(stream: seq<byte>, rs: seq<BlockRec>, level: int, c: Crc)
    requires IsStream(stream, rs, level, c)
    ensures stream != []
  {
  }

  /** A compressor that has delivered nothing has not delivered a trailer. */
  lemma NeverDone(c: Compressor)
    requires c.Valid() && c.Stuck() && c.delivered == []
    ensures c.availOut == 0
  {
  }

  /** What a verdict on the whole source is reported as, when the space does not run out. */
  function Outcome(v: Status): Verdict {
    match v
    case EndOfStream => Fine
    case Ok => UnexpectedEof
    case _ => DecompressFault(v)
  }

  /**
   * BZ2_bzBuffToBuffDecompress.  Whatever the source, the outcome is the one its verdict calls for, or the space is
   * full.  As long as all blocks can be undone, dest is the beginning of their data, and the space counts as full
   * only if there is more, or if the source breaks off with the data exactly filling it.  Of a source in which
   * nothing is wrong this decides every case: success means a whole stream that passed every check, with all its data.
   */
  method Decompress(source: seq<byte>, destLen: nat, small: bool, crc: Crc) returns (verdict: Verdict, dest: seq<byte>)
    ensures |dest| <= destLen && (verdict == OutbuffFull ==> |dest| == destLen)
    ensures verdict == OutbuffFull || verdict == Outcome(Diagnosis(Passed(source), crc))
    ensures Contained(Passed(source), crc, verdict, dest, destLen)
    ensures Clean(Passed(source), crc) ==> Decided(Passed(source), crc, verdict, dest, destLen)
  {
    hide *;
    var strm := new Decompressor(small, crc);
    var ret, out := strm.Decompress(source, destLen);
    dest := out;
    assert [] + out == out && [] + source == source;
    WholeAnswer(strm, ret, |out| == destLen);
    verdict := Reported(ret, |out| == destLen);
    ReportHolds(Passed(source), crc, ret, dest, destLen);
  }

  /** How the answer of the one call is reported. */
  function Reported(ret: Status, full: bool): Verdict {
    if ret == Ok then (if full then OutbuffFull else UnexpectedEof)
    else if ret == EndOfStream then Fine
    else DecompressFault(ret)
  }

  lemma ReportHolds(p: Passage, c: Crc, ret: Status, dest: seq<byte>, destLen: nat)
    requires |dest| <= destLen
    requires ret != Ok || |dest| < destLen ==> Diagnosis(p, c) == ret
    requires ret == EndOfStream || (ret == Ok && |dest| < destLen) ==> AllData(p.blocks) == Data(dest)
    requires AllData(p.blocks).Data? ==> dest <= AllData(p.blocks).out
    requires AllData(p.blocks).Data? && ret == Ok && |dest| == destLen ==>
               |dest| < |AllData(p.blocks).out| || (Diagnosis(p, c) == Ok && dest == AllData(p.blocks).out)
    ensures var verdict := Reported(ret, |dest| == destLen);
      && (verdict == OutbuffFull ==> |dest| == destLen) && (verdict == OutbuffFull || verdict == Outcome(Diagnosis(p, c)))
      && Contained(p, c, verdict, dest, destLen) && (Clean(p, c) ==> Decided(p, c, verdict, dest, destLen))
  {
    hide AllData, Clean, Diagnosis;
    if Clean(p, c) { CleanDiagnosis(p, c); }
  }

  /** dest is the beginning of the data, all of it on success, and full only if there is more or the source breaks off. */
  ghost predicate Contained(p: Passage, c: Crc, verdict: Verdict, dest: seq<byte>, destLen: nat) {
    && (verdict == Fine ==> AllData(p.blocks) == Data(dest))
    && (AllData(p.blocks).Data? ==> dest <= AllData(p.blocks).out)
    && (AllData(p.blocks).Data? && verdict == OutbuffFull ==> Exceeds(Diagnosis(p, c), AllData(p.blocks).out, destLen))
  }

  /** The whole outcome on a clean source. */
  ghost predicate Decided(p: Passage, c: Crc, verdict: Verdict, dest: seq<byte>, destLen: nat) {
    && AllData(p.blocks).Data?
    && (verdict == OutbuffFull <==> Exceeds(Diagnosis(p, c), AllData(p.blocks).out, destLen))
    && (verdict != OutbuffFull ==> dest == AllData(p.blocks).out)
  }

  /** Does the data not fit, or leave no room to tell that the source breaks off? */
  predicate Exceeds(v: Status, data: seq<byte>, destLen: nat) {
    |data| > destLen || (v == Ok && |data| == destLen)
  }

  lemma CleanDiagnosis(p: Passage, c: Crc)
    requires Clean(p, c)
    ensures AllData(p.blocks).Data? && (Diagnosis(p, c) == Ok || Diagnosis(p, c) == EndOfStream)
  {
    CleanData(p.blocks, c);
    DiagnosisClean(p, c);
  }

  /** A stream made by the compressor is undone exactly when the data fits; otherwise the space is full of its beginning. */
  lemma StreamOutcome(source: seq<byte>, crc: Crc, rs: seq<BlockRec>, level: int, verdict: Verdict, dest: seq<byte>, destLen: nat)
    requires IsStream(source, rs, level, crc) && |dest| <= destLen
    requires verdict == OutbuffFull || verdict == Outcome(Diagnosis(Passed(source), crc))
    requires Contained(Passed(source), crc, verdict, dest, destLen)
    requires Clean(Passed(source), crc) ==> Decided(Passed(source), crc, verdict, dest, destLen)
    ensures dest <= RecsData(rs) && verdict == (if |RecsData(rs)| <= destLen then Fine else OutbuffFull)
    ensures verdict == Fine ==> dest == RecsData(rs)
  {
    hide IsStream, Passed, AllData, Clean, Diagnosis, RecsData, Combined;
    StreamClean(source, rs, level, crc);
    DiagnosisClean(Passed(source), crc);
  }
}
