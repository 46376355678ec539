/** The compressor: the caller's protocol, the two-state driver, and the stream it delivers. */
module Compressor {
  import opened Bits
  import opened BitIO
  import opened Rotations
  import opened MainCompare
  import opened DecodeMachine
  import opened BlockFormat
  import opened MoveToFront
  import opened GenerateMtf
  import opened SendBlock
  import opened RunLength
  import opened CompressBlock
  import opened OutputRoom

  /** The checksum, left uninterpreted but for its 32-bit range. */
  datatype Crc = Crc(seed: int, update: (int, byte) -> int, finalise: int -> int, combine: (int, int) -> int)

  ghost predicate Wide(c: Crc) {
    (forall x :: 0 <= c.finalise(x) < WORD) && forall x, y :: 0 <= c.combine(x, y) < WORD
  }

  datatype Mode = Idle | Running | Flushing | Finishing
  datatype Phase = Input | Output
  datatype Action = Run | Flush | Finish
  datatype Result = RunOk | FlushOk | FinishOk | StreamEnd | SequenceError | ParamError

  // ---------- the stream of the blocks so far ----------

  ghost predicate GoodRecs(rs: seq<BlockRec>, level: int, c: Crc) {
    forall i :: 0 <= i < |rs| ==> GoodRec(rs[i], level) && rs[i].crc == c.finalise(Fold(c.update, c.seed, rs[i].data))
  }

  ghost function RecsBits(rs: seq<BlockRec>, level: int, c: Crc): seq<bool>
    requires GoodRecs(rs, level, c)
  {
    if rs == [] then [] else RecsBits(rs[..|rs| - 1], level, c) + RecBits(rs[|rs| - 1])
  }

  ghost function RecsData(rs: seq<BlockRec>): seq<byte> {
    if rs == [] then [] else RecsData(rs[..|rs| - 1]) + rs[|rs| - 1].data
  }

  ghost function Combined(rs: seq<BlockRec>, c: Crc): int {
    if rs == [] then 0 else c.combine(Combined(rs[..|rs| - 1], c), rs[|rs| - 1].crc)
  }

  ghost function StreamBits(rs: seq<BlockRec>, level: int, c: Crc): seq<bool>
    requires GoodRecs(rs, level, c)
  {
    StreamHead(level) + RecsBits(rs, level, c)
  }

  lemma RecAdded(rs: seq<BlockRec>, r: BlockRec, level: int, c: Crc)
    requires GoodRecs(rs, level, c) && GoodRec(r, level) && r.crc == c.finalise(Fold(c.update, c.seed, r.data))
    ensures GoodRecs(rs + [r], level, c) && RecsBits(rs + [r], level, c) == RecsBits(rs, level, c) + RecBits(r)
    ensures StreamBits(rs + [r], level, c) == StreamBits(rs, level, c) + RecBits(r)
    ensures RecsData(rs + [r]) == RecsData(rs) + r.data
    ensures Combined(rs + [r], c) == c.combine(Combined(rs, c), r.crc)
  {
    hide RecBits, StreamHead, Expand, Fold, UsedMarks, GoodBlock, SortedAs;
    assert (rs + [r])[..|rs|] == rs;
    Assoc(StreamHead(level), RecsBits(rs, level, c), RecBits(r));
  }

  class Compressor {
    const level: int
    const workFactor: int
    const crc: Crc
    const enc: RunEncoder
    const w: BitWriter
    const ptr: array<int>
    const quadrant: array<int>
    const eclass: array<int>
    const bh: array<bool>
    const ftab: array<int>
    const mtfFreq: array<int>
    var blockNo: int
    var combinedCRC: int
    var mode: Mode
    var state: Phase
    var availInExpect: nat
    var stateOutPos: nat
    var nextIn: seq<byte>   // input the caller has made available
    var availOut: nat
    ghost var delivered: seq<byte>
    ghost var consumed: seq<byte>
    ghost var blocks: seq<BlockRec>
    ghost var finished: bool  // the trailer has been written

    /** The arrays are as large as the block size needs, and apart. */
    ghost predicate Arrays() {
      && 1 <= level <= 9 && Wide(crc) && enc.crcUpdate == crc.update && enc.crcSeed == crc.seed && enc.nblockMAX == 100000 * level - 19
      && ptr.Length == 100000 * level == eclass.Length && quadrant.Length == 100000 * level + OVERSHOOT
      && bh.Length == 100000 * level + 96 && ftab.Length == 65537 && mtfFreq.Length == 258
      && enc.block != ptr && enc.block != quadrant && enc.block != eclass && enc.block != ftab && enc.block != mtfFreq
      && ptr != quadrant && ptr != eclass && ptr != ftab && ptr != mtfFreq && quadrant != ftab && ftab != eclass && mtfFreq != eclass
      && enc.inUse != bh && (enc as object) != w && quadrant != eclass
    }

    /** What has been written, and what of it has been handed over. */
    ghost predicate Written()
      reads `blocks, `combinedCRC, `stateOutPos, `delivered, `state, `finished, `blockNo, w
    {
      && GoodRecs(blocks, level, crc) && combinedCRC == Combined(blocks, crc) && 0 <= combinedCRC < WORD
      && stateOutPos <= |w.zbits| && delivered == w.drained + w.zbits[..stateOutPos]
      && (state == Input ==> w.zbits == [] && !finished && (blockNo == 1 ==> blocks == []))
      && (!finished ==> w.Valid() && w.Contents() == if state == Input && blockNo == 1 then [] else StreamBits(blocks, level, crc))
      && (finished ==> Whole(w.drained + w.zbits))
    }

    /** These bytes are a complete stream of the blocks. */
    ghost predicate Whole(out: seq<byte>)
      requires GoodRecs(blocks, level, crc) && 0 <= combinedCRC < WORD
      reads `blocks, `combinedCRC
    {
      exists pad :: 0 <= pad < 8 && ByteBits(out) == StreamBits(blocks, level, crc) + StreamTail(combinedCRC) + Zeros(pad)
    }

    /** All input taken is in finished blocks, in the current block or in the pending run. */
    ghost predicate Accounted()
      reads `consumed, `blocks, `state, enc, enc.block, enc.inUse
    {
      && enc.Valid()
      && consumed == RecsData(blocks) + (if state == Input then enc.Taken() else Spell(PendingOf(enc.stateInCh, enc.stateInLen)))
      && (state == Input ==> enc.nblock < enc.nblockMAX && (enc.stateInCh == 256 ==> enc.runs == []))
    }

    ghost predicate Valid()
      reads `blocks, `combinedCRC, `stateOutPos, `delivered, `state, `finished, `blockNo, `consumed, `mode, `availInExpect
      reads w, enc, enc.block, enc.inUse
    {
      && Arrays() && Written() && Accounted() && blockNo >= 1
      && (mode == Running || mode == Flushing ==> !finished)
      && (finished ==> availInExpect == 0 && enc.stateInCh == 256)
      && (mode == Idle ==> finished && stateOutPos == |w.zbits|)
      && (state == Output && mode != Flushing && enc.stateInCh == 256 ==> finished)
    }

    predicate EmptyRL()
      reads this, enc
    {
      !(enc.stateInCh < 256 && enc.stateInLen > 0)
    }

    constructor (blockSize100k: int, workFactor: int, crc: Crc)
      requires 1 <= blockSize100k <= 9 && Wide(crc)
      ensures Valid() && mode == Running && state == Input && blocks == [] && consumed == [] && delivered == [] && EmptyRL()
      ensures level == blockSize100k && this.crc == crc
      ensures fresh(enc) && fresh(w) && fresh(enc.block) && fresh(enc.inUse) && fresh(ptr) && fresh(quadrant) && fresh(eclass)
      ensures fresh(bh) && fresh(ftab) && fresh(mtfFreq)
    {
      hide RunEncoder.Core, BitWriter.Valid, BitWriter.Contents, StreamBits, Separated, Spell, Whole;
      level, this.workFactor, this.crc := blockSize100k, workFactor, crc;
      var rows, classes, quads, heads, starts, freqs := WorkArrays(100000 * blockSize100k);
      ptr, eclass, quadrant, bh, ftab, mtfFreq := rows, classes, quads, heads, starts, freqs;
      enc := new RunEncoder(100000 * blockSize100k - 19, crc.update, crc.seed);
      w := new BitWriter();
      blockNo, combinedCRC, mode, state, availInExpect, stateOutPos := 1, 0, Running, Input, 0, 0;
      nextIn, availOut, delivered, consumed, blocks, finished := [], 0, [], [], [], false;
    }

    /** The sorting and counting arrays for blocks of n bytes. */
    static method WorkArrays(n: nat)
      returns (ptr: array<int>, eclass: array<int>, quadrant: array<int>, bh: array<bool>, ftab: array<int>, mtfFreq: array<int>)
      ensures ptr.Length == n == eclass.Length && quadrant.Length == n + OVERSHOOT && bh.Length == n + 96
      ensures ftab.Length == 65537 && mtfFreq.Length == 258
      ensures ptr != quadrant && ptr != eclass && ptr != ftab && ptr != mtfFreq && quadrant != ftab && ftab != eclass && mtfFreq != eclass && quadrant != eclass
      ensures fresh(ptr) && fresh(eclass) && fresh(quadrant) && fresh(bh) && fresh(ftab) && fresh(mtfFreq)
    {
      ptr, eclass := new int[n], new int[n];
      quadrant, bh := new int[n + OVERSHOOT], new bool[n + 96];
      ftab, mtfFreq := new int[65537], new int[258];
    }

    // ---------- input ----------

    /** copy_input_until_stop: takes input until the block is full, the input ends or the expected amount is in. */
    method CopyInputUntilStop() returns (progress: bool)
      requires Valid() && state == Input && (mode != Running ==> availInExpect == |nextIn|)
      modifies this`nextIn, this`availInExpect, this`consumed, enc, enc.block, enc.inUse
      ensures Arrays() && Written() && enc.Valid() && consumed == RecsData(blocks) + enc.Taken()
      ensures enc.nblock <= enc.nblockMAX + 4 && (enc.stateInCh == 256 ==> enc.runs == [])
      ensures mode != Running ==> availInExpect == |nextIn|
      ensures Took(old(consumed), old(nextIn), consumed, nextIn) && progress == (|nextIn| < |old(nextIn)|)
      ensures enc.nblock >= enc.nblockMAX || nextIn == []
      ensures enc.nblock >= enc.nblockMAX ==> |nextIn| < |old(nextIn)|
    {
      hide RunEncoder.Core, Written, Spell, Separated, Arrays;
      ghost var all, taken, n := nextIn, consumed, 0;
      assert all[0..] == all && taken + all[..0] == taken;
      progress := false;
      while enc.nblock < enc.nblockMAX && nextIn != []
        invariant Arrays() && Written() && enc.Valid() && consumed == RecsData(blocks) + enc.Taken()
        invariant enc.nblock <= enc.nblockMAX + 4 && (enc.stateInCh == 256 ==> enc.runs == [])
        invariant mode != Running ==> availInExpect == |nextIn|
        invariant 0 <= n <= |all| && nextIn == all[n..] && consumed == taken + all[..n] && progress == (n > 0)
        invariant enc.nblock >= enc.nblockMAX ==> n > 0
        decreases |nextIn|
      {
        progress := true;
        Assoc(RecsData(blocks), enc.Taken(), [nextIn[0]]);
        assert all[..n] + [nextIn[0]] == all[..n + 1];
        Assoc(taken, all[..n], [nextIn[0]]);
        enc.AddChar(nextIn[0]);
        consumed := consumed + [nextIn[0]];
        nextIn := nextIn[1..];
        if mode != Running { availInExpect := availInExpect - 1; }
        n := n + 1;
      }
    }

    // ---------- output ----------

    /** copy_output_until_stop: hands over finished bytes as far as there is space. */
    method CopyOutputUntilStop() returns (progress: bool, out: seq<byte>)
      requires Valid() && state == Output
      modifies this`availOut, this`stateOutPos, this`delivered
      ensures Valid() && delivered == old(delivered) + out && progress == (out != [])
      ensures availOut + |out| == old(availOut) && (availOut == 0 || stateOutPos == |w.zbits|)
      ensures stateOutPos == old(stateOutPos) + |out|
    {
      hide RunEncoder.Valid, BitWriter.Valid, BitWriter.Contents, Accounted, GoodRecs, StreamBits, Whole, Combined;
      progress, out := false, [];
      while availOut != 0 && stateOutPos < |w.zbits|
        invariant stateOutPos <= |w.zbits| && delivered == w.drained + w.zbits[..stateOutPos]
        invariant delivered == old(delivered) + out && progress == (out != [])
        invariant availOut + |out| == old(availOut) && stateOutPos == old(stateOutPos) + |out|
        decreases |w.zbits| - stateOutPos
      {
        progress := true;
        ghost var c := w.zbits[stateOutPos];
        assert w.zbits[..stateOutPos + 1] == w.zbits[..stateOutPos] + [c];
        Assoc(w.drained, w.zbits[..stateOutPos], [c]);
        Assoc(old(delivered), out, [c]);
        out := out + [w.zbits[stateOutPos]];
        delivered := delivered + [c];
        stateOutPos := stateOutPos + 1;
        availOut := availOut - 1;
      }
    }

    // ---------- blocks ----------

    /** The stream header, before the first block. */
    method PutHeader()
      requires w.Valid() && w.Contents() == [] && 1 <= level <= 9
      modifies w
      ensures w.Valid() && w.Contents() == StreamHead(level) && w.drained == old(w.drained)
    {
      hide BitWriter.Valid, BitWriter.Contents, Bytes;
      PutBytes(w, STREAM_MAGIC + [HDR_0 + level]);
      assert [] + StreamHead(level) == StreamHead(level);
    }

    /** The stream trailer, padded to a whole byte. */
    method PutTrailer() returns (ghost pad: nat)
      requires w.Valid() && 0 <= combinedCRC < WORD
      modifies w
      ensures pad < 8 && w.drained == old(w.drained)
      ensures ByteBits(w.drained + w.zbits) == old(w.Contents()) + StreamTail(combinedCRC) + Zeros(pad)
    {
      hide BitWriter.Valid, BitWriter.Contents, Bytes, ToBits, ByteBits;
      ghost var c := w.Contents();
      PutBytes(w, END_MAGIC);
      w.PutUInt32(combinedCRC);
      Assoc(c, Bytes(END_MAGIC), ToBits(combinedCRC, 32));
      pad := w.FinishWrite();
    }

    /** The current block, sorted and written. */
    method PutBlock() returns (ghost r: BlockRec)
      requires Arrays() && enc.Valid() && 0 < enc.nblock <= enc.nblockMAX + 9 && w.Valid()
      modifies w, ptr, enc.block, quadrant, eclass, bh, ftab, mtfFreq
      ensures w.Valid() && w.drained == old(w.drained) && enc.Valid()
      ensures GoodRec(r, level) && r.data == Spell(enc.runs) && r.crc == crc.finalise(enc.blockCRC) && |r.b| == enc.nblock
      ensures w.Contents() == old(w.Contents()) + RecBits(r)
    {
      hide BitWriter.Valid, BitWriter.Contents, Expand, EncodeRuns, Spell, Fold, GoodRec, RecBits, Separated;
      enc.BlockSpells();
      ghost var b := EncodeRuns(enc.runs);
      BlockMarks(b, enc.block[..enc.nblock], enc.inUse[..]);
      r := WriteBlock(w, ptr, enc.block, quadrant, eclass, bh, ftab, mtfFreq, enc.inUse, enc.nblock,
                      crc.finalise(enc.blockCRC), workFactor, level, b, Spell(enc.runs));
    }

    /** The block, unless it is empty, behind what has been written so far. */
    method AddBlock()
      requires Arrays() && enc.Valid() && enc.nblock <= enc.nblockMAX + 9
      requires w.Valid() && GoodRecs(blocks, level, crc) && w.Contents() == StreamBits(blocks, level, crc)
      requires combinedCRC == Combined(blocks, crc) && 0 <= combinedCRC < WORD
      modifies this`blocks, this`combinedCRC, w, ptr, enc.block, quadrant, eclass, bh, ftab, mtfFreq
      ensures enc.Valid() && w.Valid() && w.drained == old(w.drained)
      ensures GoodRecs(blocks, level, crc) && w.Contents() == StreamBits(blocks, level, crc)
      ensures combinedCRC == Combined(blocks, crc) && 0 <= combinedCRC < WORD
      ensures RecsData(blocks) == old(RecsData(blocks)) + Spell(enc.runs)
      ensures |w.Contents()| <= |old(w.Contents())| + MostBits(enc.nblock)
      ensures Added(old(blocks), blocks, enc.nblock)
    {
      hide BitWriter.Valid, BitWriter.Contents, RunEncoder.Core, GoodRecs, StreamBits, Combined, RecsData, GoodRec, RecBits, Spell, Fold, Separated, MostBits;
      ghost var rs := blocks;
      if enc.nblock > 0 {
        combinedCRC := crc.combine(combinedCRC, crc.finalise(enc.blockCRC));
        EncoderCrc(enc);
        ghost var r := PutBlock();
        RecLength(r, level);
        RecAdded(rs, r, level, crc);
        blocks := rs + [r];
      } else {
        NoRunsYet(enc);
        assert RecsData(rs) + [] == RecsData(rs);
      }
    }

    /**
     * BZ2_compressBlock: the stream header if this is the first block, the block unless it is empty, and the trailer
     * if it is the last.
     */
    method CompressBlock(isLast: bool)
      requires Arrays() && Written() && state == Input && blockNo >= 1 && enc.Valid() && enc.nblock <= enc.nblockMAX + 9
      requires consumed == RecsData(blocks) + enc.Taken()
      modifies this`blocks, this`combinedCRC, this`state, this`finished, w, ptr, enc.block, quadrant, eclass, bh, ftab, mtfFreq
      ensures Written() && state == Output && finished == isLast && enc.Valid()
      ensures |w.zbits| <= Room(level, enc.nblock) && Added(old(blocks), blocks, enc.nblock)
      ensures consumed == RecsData(blocks) + Spell(PendingOf(enc.stateInCh, enc.stateInLen))
    {
      hide BitWriter.Valid, BitWriter.Contents, RunEncoder.Core, GoodRecs, StreamBits, Combined, RecsData, StreamTail, StreamHead, Spell, ByteBits, Separated, Arrays, MostBits, Room;
      ghost var rs := blocks;
      ghost var start := |w.drained|;
      BitsHeld(w);
      LevelRange();
      if blockNo == 1 {
        PutHeader();
        HeadOnly(level, crc);
      }
      AddBlock();
      BitsHeld(w);
      HeadTailLength(level, combinedCRC);
      SpellApart(enc.runs, PendingOf(enc.stateInCh, enc.stateInLen));
      Assoc(RecsData(rs), Spell(enc.runs), Spell(PendingOf(enc.stateInCh, enc.stateInLen)));
      state := Output;
      if isLast {
        ghost var pad := PutTrailer();
        assert ByteBits(w.drained + w.zbits) == StreamBits(blocks, level, crc) + StreamTail(combinedCRC) + Zeros(pad);
        finished := true;
      }
      NblockRange();
      BytesFit(level, enc.nblock, |w.zbits|, 8 * |w.drained + w.zbits| - 8 * start);
    }

    lemma NblockRange()
      requires Arrays() && enc.Valid()
      ensures 0 <= enc.nblock <= enc.nblockMAX + 9 && enc.nblockMAX == 100000 * level - 19 && 1 <= level <= 9
    {
    }

    lemma LevelRange()
      requires Arrays()
      ensures 1 <= level <= 9
    {
    }

    // ---------- the driver ----------

    /** prepare_new_block: the output area and the block are empty; the pending run stays. */
    method PrepareNewBlock()
      requires Arrays() && Written() && Accounted() && blockNo >= 1 && state == Output && stateOutPos == |w.zbits| && !finished
      modifies this`stateOutPos, this`blockNo, this`state, w, enc, enc.inUse
      ensures Arrays() && Written() && Accounted() && blockNo >= 2 && state == Input
      ensures enc.stateInCh == old(enc.stateInCh) && enc.stateInLen == old(enc.stateInLen)
    {
      hide BitWriter.Valid, BitWriter.Contents, RunEncoder.Core, GoodRecs, StreamBits, Combined, RecsData, StreamHead, Spell, Separated;
      EncoderRoom();
      assert w.zbits[..stateOutPos] == w.zbits;
      enc.PrepareNewBlock();
      w.Reuse();
      stateOutPos := 0;
      assert w.drained + [] == w.drained;
      assert [] + PendingOf(enc.stateInCh, enc.stateInLen) == PendingOf(enc.stateInCh, enc.stateInLen);
      blockNo := blockNo + 1;
      state := Input;
    }

    lemma EncoderRoom()
      requires Arrays() && enc.Valid()
      ensures enc.nblockMAX >= 1 && (enc as object) != w
    {
    }

    /** Is a flush or a finish complete but for output? */
    predicate Drained()
      reads this, enc
    {
      mode != Running && availInExpect == 0 && EmptyRL()
    }

    /** The first half of the driver's loop: hand over output, then make room for a new block. */
    method OutputHalf() returns (stop: bool, progress: bool, out: seq<byte>)
      requires Valid() && mode != Idle && state == Output
      modifies this`availOut, this`stateOutPos, this`delivered, this`blockNo, this`state, w, enc, enc.inUse
      ensures Valid() && delivered == old(delivered) + out && availOut + |out| == old(availOut) && progress == (out != [])
      ensures enc.stateInCh == old(enc.stateInCh) && enc.stateInLen == old(enc.stateInLen)
      ensures !stop ==> state == Input && !Drained()
      ensures stop ==> (
                || (state == Output && stateOutPos < |w.zbits| && availOut == 0)
                || (mode == Finishing && Drained() && finished && stateOutPos == |w.zbits| && state == Output)
                || (mode == Flushing && Drained() && state == Input))
    {
      hide Written, Accounted, Arrays, RunEncoder.Valid;
      EncoderPending();
      progress, out := CopyOutputUntilStop();
      OutputBounds();
      if stateOutPos < |w.zbits| { return true, progress, out; }
      if mode == Finishing && availInExpect == 0 && EmptyRL() { return true, progress, out; }
      PrepareNewBlock();
      stop := mode == Flushing && availInExpect == 0 && EmptyRL();
    }

    lemma EncoderPending()
      requires Valid()
      ensures PendingOk(enc.stateInCh, enc.stateInLen) && (EmptyRL() <==> enc.stateInCh == 256)
    {
    }

    lemma InputEmpty()
      requires Valid()
      ensures state == Input ==> w.zbits == []
    {
    }

    /** No call can make progress: there is no space, or everything has been handed over already. */
    ghost predicate Stuck()
      reads this, w
    {
      availOut == 0 || (finished && stateOutPos == |w.zbits|)
    }

    lemma OutputBounds()
      requires Valid()
      ensures stateOutPos <= |w.zbits|
    {
    }

    /** The second half: take input, and compress when the block is full or everything expected is in. */
    method InputHalf() returns (stop: bool, progress: bool)
      requires Valid() && mode != Idle && state == Input && (mode != Running ==> availInExpect == |nextIn|)
      modifies this`nextIn, this`availInExpect, this`consumed, this`blocks, this`combinedCRC, this`state, this`finished
      modifies enc, enc.block, enc.inUse, w, ptr, quadrant, eclass, bh, ftab, mtfFreq
      ensures Valid() && (mode != Running ==> availInExpect == |nextIn|)
      ensures Took(old(consumed), old(nextIn), consumed, nextIn) && progress == (|nextIn| < |old(nextIn)|)
      ensures stop ==> mode == Running && nextIn == [] && state == Input
      ensures !stop ==> state == Output && (|nextIn| < |old(nextIn)| || Drained())
      ensures Grown(old(blocks), blocks, enc.nblockMAX) || (!stop && Drained() && Closing(old(blocks), blocks, enc.nblockMAX))
    {
      hide Written, Arrays, RunEncoder.Core, Spell, Separated, RecsData, Added, Grown, Closing;
      LevelRange();
      EncoderRoom();
      ghost var was := blocks;
      GrownStart(was, enc.nblockMAX);
      progress := CopyInputUntilStop();
      if mode != Running && availInExpect == 0 {
        enc.FlushRL();
        CompressBlock(mode == Finishing);
        AddedGrows(was, blocks, enc.nblock, enc.nblockMAX);
        stop := false;
      } else if enc.nblock >= enc.nblockMAX {
        NoRunsNoBytes(enc);
        CompressBlock(false);
        AddedGrows(was, blocks, enc.nblock, enc.nblockMAX);
        stop := false;
      } else {
        stop := true;
      }
    }

    /**
     * handle_compress.  It terminates, takes a prefix of the input, hands over as much as fits, and stops only for
     * want of input, for want of space, or when a flush or finish is complete.
     */
    method HandleCompress() returns (progress: bool, out: seq<byte>)
      requires Valid() && mode != Idle && (mode != Running ==> availInExpect == |nextIn|)
      modifies this`nextIn, this`availInExpect, this`consumed, this`blocks, this`combinedCRC, this`state, this`finished
      modifies this`availOut, this`stateOutPos, this`delivered, this`blockNo
      modifies enc, enc.block, enc.inUse, w, ptr, quadrant, eclass, bh, ftab, mtfFreq
      ensures Valid() && (mode != Running ==> availInExpect == |nextIn|)
      ensures delivered == old(delivered) + out && availOut + |out| == old(availOut)
      ensures Took(old(consumed), old(nextIn), consumed, nextIn)
      ensures progress == (out != [] || |nextIn| < |old(nextIn)|)
      ensures old(state) == Input && mode != Running ==> |nextIn| < |old(nextIn)| || nextIn == []
      ensures Stopped()
      ensures if mode == Running then Grown(old(blocks), blocks, enc.nblockMAX) else Closing(old(blocks), blocks, enc.nblockMAX)
    {
      hide *;
      GrownStart(blocks, enc.nblockMAX);
      progress, out := false, [];
      ghost var all, taken := nextIn, consumed;
      TookNothing(taken, all);
      assert delivered + [] == delivered;
      ghost var start := delivered;
      var stop := false;
      while !stop
        invariant Valid() && mode != Idle && (mode != Running ==> availInExpect == |nextIn|)
        invariant delivered == start + out && availOut + |out| == old(availOut)
        invariant Took(taken, all, consumed, nextIn)
        invariant progress == (out != [] || |nextIn| < |all|)
        invariant old(state) == Input && mode != Running ==> |nextIn| < |all| || nextIn == [] || (nextIn == all && state == Input && !stop)
        invariant stop ==> Stopped()
        invariant Grown(old(blocks), blocks, enc.nblockMAX) || (Drained() && (stop || state == Output) && Closing(old(blocks), blocks, enc.nblockMAX))
        decreases !stop, |nextIn|, if state == Output && Drained() then 0 else 1
      {
        var p, o;
        ghost var c, n, was := consumed, nextIn, blocks;
        stop, p, o := Round();
        if Grown(old(blocks), was, enc.nblockMAX) { GrownMore(old(blocks), was, blocks, enc.nblockMAX); }
        TookMore(taken, all, c, n, consumed, nextIn);
        Assoc(start, out, o);
        out := out + o;
        progress := progress || p;
      }
      assert Stopped();
      GrownCloses(old(blocks), blocks, enc.nblockMAX);
      NotDraining();
    }

    lemma NotDraining()
      ensures mode == Running ==> !Drained()
    {
    }

    /** Why the driver stops: no space, no input, or a flush or finish is complete. */
    ghost predicate Stopped()
      reads this, w, enc
    {
      || (state == Output && stateOutPos < |w.zbits| && availOut == 0)
      || (mode == Running && nextIn == [] && state == Input)
      || (mode == Flushing && Drained() && state == Input)
      || (mode == Finishing && Drained() && finished && stateOutPos == |w.zbits| && state == Output)
    }

    /** One turn of the driver's loop. */
    method Round() returns (stop: bool, progress: bool, out: seq<byte>)
      requires Valid() && mode != Idle && (mode != Running ==> availInExpect == |nextIn|)
      modifies this`nextIn, this`availInExpect, this`consumed, this`blocks, this`combinedCRC, this`state, this`finished
      modifies this`availOut, this`stateOutPos, this`delivered, this`blockNo
      modifies enc, enc.block, enc.inUse, w, ptr, quadrant, eclass, bh, ftab, mtfFreq
      ensures Valid() && (mode != Running ==> availInExpect == |nextIn|)
      ensures delivered == old(delivered) + out && availOut + |out| == old(availOut)
      ensures Took(old(consumed), old(nextIn), consumed, nextIn) && |nextIn| <= |old(nextIn)|
      ensures progress == (out != [] || |nextIn| < |old(nextIn)|)
      ensures stop ==> Stopped()
      ensures old(state) == Input && mode != Running ==> |nextIn| < |old(nextIn)| || nextIn == []
      ensures !stop ==> |nextIn| < |old(nextIn)| || (state == Output && Drained() && !(old(state) == Output && old(Drained())))
      ensures old(state) == Output && old(Drained()) ==> stop && Drained() && blocks == old(blocks)
      ensures Grown(old(blocks), blocks, enc.nblockMAX) || (Drained() && Closing(old(blocks), blocks, enc.nblockMAX))
      ensures !stop ==> state == Output
    {
      hide Valid, Took, Grown, Closing;
      GrownStart(blocks, enc.nblockMAX);
      progress, out := false, [];
      TookNothing(consumed, nextIn);
      assert delivered + [] == delivered;
      if state == Output {
        stop, progress, out := OutputHalf();
        if stop { return; }
      }
      ghost var c, n := consumed, nextIn;
      var p;
      stop, p := InputHalf();
      TookMore(c, n, c, n, consumed, nextIn);
      progress := progress || p;
    }

    /** Calls out of turn, and calls that change the amount of input while a flush or finish is under way. */
    static predicate Refused(action: Action, mode: Mode, expected: nat, given: nat) {
      || mode == Idle
      || (mode == Flushing && action != Flush) || (mode == Finishing && action != Finish)
      || (mode != Running && expected != given)
    }

    /** There is still something to take in, to compress or to hand over. */
    predicate Unfinished()
      reads this, w, enc
    {
      availInExpect > 0 || !EmptyRL() || stateOutPos < |w.zbits|
    }

    /** Everything taken in is in finished blocks, and everything written has been handed over. */
    ghost predicate Flushed()
      reads this, w, enc
    {
      EmptyRL() && availInExpect == 0 && stateOutPos == |w.zbits| && consumed == RecsData(blocks)
    }

    method BeginDrain(action: Action, n: nat)
      requires Valid() && mode == Running && action != Action.Run
      modifies this`mode, this`availInExpect
      ensures Valid() && availInExpect == n && mode == if action == Flush then Flushing else Finishing
    {
      hide Arrays, Written, Accounted;
      availInExpect := n;
      mode := if action == Flush then Flushing else Finishing;
    }

    method EndFlush()
      requires Valid() && mode == Flushing && EmptyRL() && availInExpect == 0 && stateOutPos == |w.zbits| && state == Input
      modifies this`mode
      ensures Valid() && mode == Running && Flushed()
    {
      hide Arrays, Written, RunEncoder.Core;
      PendingNone();
      mode := Running;
    }

    method EndFinish()
      requires Valid() && mode == Finishing && EmptyRL() && availInExpect == 0 && stateOutPos == |w.zbits| && finished
      modifies this`mode
      ensures Valid() && mode == Idle && Flushed()
      ensures GoodRecs(blocks, level, crc) && 0 <= combinedCRC < WORD && Whole(delivered)
    {
      hide Arrays, RunEncoder.Core, Whole, GoodRecs;
      PendingNone();
      assert w.zbits[..stateOutPos] == w.zbits;
      mode := Idle;
    }

    lemma PendingNone()
      requires Valid() && EmptyRL()
      ensures enc.stateInCh == 256
      ensures consumed == RecsData(blocks)
    {
      hide RecsData;
      assert Spell([]) == [];
      if state == Input { NoPending(enc); }
    }

    /**
     * BZ2_bzCompress.  The stream end is announced only when all input has been taken, nothing is pending and the
     * whole stream, trailer included, has been handed over; from then on every call is refused and changes nothing.
     */
    method Compress(action: Action, next: seq<byte>, space: nat) returns (result: Result, out: seq<byte>)
      requires Valid()
      modifies this, enc, enc.block, enc.inUse, w, ptr, quadrant, eclass, bh, ftab, mtfFreq
      ensures Valid() && delivered == old(delivered) + out && |out| <= space
      ensures Took(old(consumed), next, consumed, nextIn)
      ensures old(mode) == Idle ==> result == SequenceError && mode == Idle && out == [] && consumed == old(consumed)
      ensures result == Result.StreamEnd <==> old(mode) != Idle && mode == Idle
      ensures result == Result.StreamEnd ==> action == Finish && consumed == old(consumed) + next && Flushed()
      ensures result == Result.StreamEnd ==> GoodRecs(blocks, level, crc) && 0 <= combinedCRC < WORD && Whole(delivered)
      ensures action == Flush && result == RunOk ==> mode == Running && consumed == old(consumed) + next && Flushed()
      ensures old(mode) == Flushing && action != Flush ==> result == SequenceError && consumed == old(consumed) && out == []
      ensures old(mode) == Finishing && action != Finish ==> result == SequenceError && consumed == old(consumed) && out == []
      ensures (old(mode) == Flushing || old(mode) == Finishing) && old(availInExpect) != |next| ==> result == SequenceError && consumed == old(consumed)
      ensures result == FlushOk || result == FinishOk ==> |out| == space && (out != [] || |nextIn| < |next| || result == FlushOk)
      ensures old(mode) == Running ==> availOut + |out| == space
      ensures old(mode) == Running && action == Finish ==> result == Result.StreamEnd || result == FinishOk || result == SequenceError
      ensures old(mode) == Running && action == Finish && result == SequenceError ==>
                Stuck() && out == [] && nextIn == next && (old(state) == Input ==> next == [])
      ensures old(mode) == Running && action == Action.Run ==>
                && mode == Running && (nextIn == [] || availOut == 0)
                && result == if out != [] || |nextIn| < |next| then RunOk else ParamError
      ensures if action == Action.Run then Grown(old(blocks), blocks, enc.nblockMAX) else Closing(old(blocks), blocks, enc.nblockMAX)
      ensures Refused(action, old(mode), old(availInExpect), |next|) ==>
                result == SequenceError && mode == old(mode) && out == [] && nextIn == next && consumed == old(consumed)
      ensures !Refused(action, old(mode), old(availInExpect), |next|) && action == Flush ==>
                if result == FlushOk then mode == Flushing && Unfinished() && availInExpect == |nextIn| else result == RunOk && mode == Running
      ensures !Refused(action, old(mode), old(availInExpect), |next|) && action == Finish ==>
                if result == FinishOk then mode == Finishing && Unfinished() && availInExpect == |nextIn|
                else result == Result.StreamEnd || (result == SequenceError && out == [] && nextIn == next && mode == Finishing)
    {
      hide Valid, Whole, RecsData, Took, EmptyRL, Grown, Closing;
      GrownStart(blocks, enc.nblockMAX);
      GrownCloses(blocks, blocks, enc.nblockMAX);
      nextIn, availOut := next, space;
      out := [];
      assert delivered + [] == delivered;
      TookNothing(consumed, next);
      if mode == Idle { return SequenceError, out; }
      if mode == Running {
        if action == Action.Run {
          var progress;
          progress, out := HandleCompress();
          return if progress then RunOk else ParamError, out;
        }
        BeginDrain(action, |next|);
      }
      if (mode == Flushing && action != Flush) || (mode == Finishing && action != Finish) { return SequenceError, out; }
      if availInExpect != |nextIn| { return SequenceError, out; }
      if mode == Flushing { result, out := FlushStep(next); } else { result, out := FinishStep(next); }
    }

    method FlushStep(ghost next: seq<byte>) returns (result: Result, out: seq<byte>)
      requires Valid() && mode == Flushing && availInExpect == |nextIn| && nextIn == next
      modifies this, enc, enc.block, enc.inUse, w, ptr, quadrant, eclass, bh, ftab, mtfFreq
      ensures Valid() && delivered == old(delivered) + out && |out| <= old(availOut) && Took(old(consumed), next, consumed, nextIn)
      ensures availOut + |out| == old(availOut)
      ensures (result == FlushOk && mode == Flushing) || (result == RunOk && mode == Running)
      ensures result == RunOk ==> consumed == old(consumed) + next && Flushed()
      ensures result == FlushOk ==> |out| == old(availOut) && Unfinished() && availInExpect == |nextIn|
      ensures Closing(old(blocks), blocks, enc.nblockMAX)
    {
      hide Valid, RecsData, Closing, Grown;
      var progress;
      progress, out := HandleCompress();
      EncoderPending();
      OutputBounds();
      InputEmpty();
      if availInExpect > 0 || !EmptyRL() || stateOutPos < |w.zbits| { return FlushOk, out; }
      EndFlush();
      TookAll(old(consumed), next, consumed, nextIn);
      return RunOk, out;
    }

    method FinishStep(ghost next: seq<byte>) returns (result: Result, out: seq<byte>)
      requires Valid() && mode == Finishing && availInExpect == |nextIn| && nextIn == next
      modifies this, enc, enc.block, enc.inUse, w, ptr, quadrant, eclass, bh, ftab, mtfFreq
      ensures Valid() && delivered == old(delivered) + out && |out| <= old(availOut) && Took(old(consumed), next, consumed, nextIn)
      ensures if result == Result.StreamEnd then mode == Idle else mode == Finishing && (result == SequenceError || result == FinishOk)
      ensures result == Result.StreamEnd ==> consumed == old(consumed) + next && Flushed()
      ensures result == Result.StreamEnd ==> GoodRecs(blocks, level, crc) && 0 <= combinedCRC < WORD && Whole(delivered)
      ensures result == FinishOk ==> |out| == old(availOut) && (out != [] || |nextIn| < |next|) && Unfinished() && availInExpect == |nextIn|
      ensures result == SequenceError ==> Stuck() && out == [] && nextIn == next && (old(state) == Input ==> next == [])
      ensures availOut + |out| == old(availOut)
      ensures Closing(old(blocks), blocks, enc.nblockMAX)
    {
      hide Valid, Whole, RecsData, GoodRecs, Closing, Grown;
      var progress;
      progress, out := HandleCompress();
      EncoderPending();
      OutputBounds();
      if !progress {
        TookNone(old(consumed), next, consumed, nextIn);
        return SequenceError, out;
      }
      if availInExpect > 0 || !EmptyRL() || stateOutPos < |w.zbits| { return FinishOk, out; }
      EndFinish();
      TookAll(old(consumed), next, consumed, nextIn);
      return Result.StreamEnd, out;
    }
  }

  lemma TookAll(taken: seq<byte>, all: seq<byte>, consumed: seq<byte>, rest: seq<byte>)
    requires Took(taken, all, consumed, rest)
    ensures rest == [] ==> consumed == taken + all
  {
    if rest == [] { assert all[..|all|] == all; }
  }

  lemma TookNone(taken: seq<byte>, all: seq<byte>, consumed: seq<byte>, rest: seq<byte>)
    requires Took(taken, all, consumed, rest) && |rest| >= |all|
    ensures rest == all
  {
  }

  lemma TookNothing(consumed: seq<byte>, next: seq<byte>)
    ensures Took(consumed, next, consumed, next)
  {
    assert consumed == consumed + next[..0] && next == next[0..];
  }

  /** At most one block has been added, of n bytes. */
  ghost predicate Added(was: seq<BlockRec>, now: seq<BlockRec>, n: int) {
    now == was || (|now| == |was| + 1 && now[..|was|] == was && |now[|was|].b| == n)
  }

  /** Only full blocks have been added. */
  ghost predicate Grown(was: seq<BlockRec>, now: seq<BlockRec>, full: int) {
    was <= now && forall i :: |was| <= i < |now| ==> |now[i].b| >= full
  }

  /** Blocks have been added of which at most the last is not full. */
  ghost predicate Closing(was: seq<BlockRec>, now: seq<BlockRec>, full: int) {
    was <= now && forall i :: |was| <= i < |now| - 1 ==> |now[i].b| >= full
  }

  lemma GrownMore(was: seq<BlockRec>, mid: seq<BlockRec>, now: seq<BlockRec>, full: int)
    requires Grown(was, mid, full)
    ensures Grown(mid, now, full) ==> Grown(was, now, full)
    ensures Closing(mid, now, full) ==> Closing(was, now, full)
  {
  }

  lemma GrownStart(was: seq<BlockRec>, full: int)
    ensures Grown(was, was, full)
  {
  }

  lemma GrownCloses(was: seq<BlockRec>, now: seq<BlockRec>, full: int)
    ensures Grown(was, now, full) ==> Closing(was, now, full)
  {
  }

  lemma AddedGrows(was: seq<BlockRec>, now: seq<BlockRec>, n: int, full: int)
    requires Added(was, now, n)
    ensures Closing(was, now, full) && (n >= full ==> Grown(was, now, full))
  {
  }

  /** A prefix of the input has been taken. */
  ghost predicate Took(taken: seq<byte>, all: seq<byte>, consumed: seq<byte>, rest: seq<byte>) {
    exists n :: 0 <= n <= |all| && consumed == taken + all[..n] && rest == all[n..]
  }

  lemma TookMore(taken: seq<byte>, all: seq<byte>, c1: seq<byte>, r1: seq<byte>, c2: seq<byte>, r2: seq<byte>)
    requires Took(taken, all, c1, r1) && Took(c1, r1, c2, r2)
    ensures Took(taken, all, c2, r2) && |r2| <= |r1| <= |all|
  {
    var n :| 0 <= n <= |all| && c1 == taken + all[..n] && r1 == all[n..];
    var m :| 0 <= m <= |r1| && c2 == c1 + r1[..m] && r2 == r1[m..];
    Slices(taken, all, n, m);
    assert c2 == taken + all[..n + m] && r2 == all[n + m..];
  }

  lemma Slices(s: seq<byte>, all: seq<byte>, n: int, m: int)
    requires 0 <= n <= |all| && 0 <= m <= |all| - n
    ensures s + all[..n] + all[n..][..m] == s + all[..n + m] && all[n..][m..] == all[n + m..]
  {
    assert all[..n] + all[n..][..m] == all[..n + m];
  }

  lemma BlockMarks(b: seq<byte>, blk: seq<int>, inUse: seq<bool>)
    requires blk == b && |inUse| == 256 && forall v :: 0 <= v < 256 ==> (inUse[v] <==> v in blk)
    ensures UsedMarks(b, inUse)
  {
    forall x | 0 <= x < |b| ensures inUse[b[x]] {
      assert blk[x] == b[x] && b[x] in blk;
    }
  }

  /** Whole bytes and at most 31 bits more. */
  lemma BitsHeld(w: BitWriter)
    requires w.Valid()
    ensures 8 * (|w.drained| + |w.zbits|) <= |w.Contents()| <= 8 * (|w.drained| + |w.zbits|) + 31
  {
  }

  lemma HeadTailLength(level: int, crc: int)
    ensures |StreamHead(level)| == 32 && |StreamTail(crc)| == 80
  {
    BytesLength(STREAM_MAGIC + [HDR_0 + level]);
    BytesLength(END_MAGIC);
    hide Bytes, ToBits;
  }

  lemma HeadOnly(level: int, c: Crc)
    ensures GoodRecs([], level, c) && StreamBits([], level, c) == StreamHead(level)
  {
    assert StreamHead(level) + [] == StreamHead(level);
  }

  lemma SpellApart(rs: seq<Run>, p: seq<Run>)
    requires |p| <= 1
    ensures Spell(rs + p) == Spell(rs) + Spell(p)
  {
    assert Spell([]) == [];
    hide Spell, Copies;
    if p == [] {
      assert rs + p == rs && Spell(rs) + [] == Spell(rs);
    } else {
      SpellAdded(rs, p[0]);
      SpellAdded([], p[0]);
      assert [] + [p[0]] == p && rs + [p[0]] == rs + p;
      assert [] + Copies(p[0].c, p[0].n) == Copies(p[0].c, p[0].n);
    }
  }

  lemma EncoderCrc(enc: RunEncoder)
    requires enc.Valid()
    ensures enc.blockCRC == Fold(enc.crcUpdate, enc.crcSeed, Spell(enc.runs))
  {
  }

  lemma NoRunsYet(enc: RunEncoder)
    requires enc.Valid() && enc.nblock <= 0
    ensures Spell(enc.runs) == []
  {
    SomeRuns(enc.runs);
  }

  lemma NoRunsNoBytes(enc: RunEncoder)
    requires enc.Valid()
    ensures enc.runs == [] ==> enc.nblock == 0
  {
    if enc.runs == [] { assert EncodeRuns(enc.runs) == []; assert |enc.block[..enc.nblock]| == 0; }
  }

  lemma NoPending(enc: RunEncoder)
    requires enc.Valid() && enc.stateInCh == 256 && enc.runs == []
    ensures enc.Taken() == []
  {
    assert [] + PendingOf(256, 0) == [];
  }

  lemma SomeRuns(rs: seq<Run>)
    requires GoodRuns(rs)
    ensures rs != [] ==> |EncodeRuns(rs)| > 0
  {
  }
}
