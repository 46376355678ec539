# bzip2 and the FAAD bit reader in Dafny

A model of the bzip2 codec in `ext/bzip2` and of the FAAD bit reader in `ext/faad/bits.c`, with proofs.

The compressor takes bytes, run-length codes them, sorts the rotations of each block by one of two algorithms, codes the
last column by move-to-front and zero runs, chooses and transmits several Huffman tables, and writes bits; all of it in
place and driven by calls that supply any amount of input and take any amount of output.  The decompressor is a parser
that can be suspended at every bit field, with tables, a segmented move-to-front list and two ways of undoing the sort,
again driven by calls of any size.  The main results say that

- both sorts list all rotations in order, and leave the block as it was (`MainSort.Sort`, `FallbackSort.Sort`);
- walking the last column from the start row gives back the block for every sorted listing (`InverseBwt.WalkInverts`);
- code lengths are those of a complete and optimal code for every frequency table, with the frequencies halved only as
  often as no optimal code is within the limit (`CodeLengths.MakeCodeLengths`), the codes are prefix-free, and the
  decoding tables decode them;
- the parser, on its arrays and its save area, does exactly what an abstract parser does on bits, wherever it is
  suspended (`BlockParser.DState.Decompress`), and that parser accepts exactly the blocks and streams of a grammar that
  says what the bits mean, not how they are read (`ParserExact.BlockExact`, `StreamExact.StreamExactly`);
- on any input, every answer of the decompressor is the diagnosis of that input (`Decompressor.AnswerIsDiagnosis`);
- decompression undoes compression for every input, with any division of input and output on both sides
  (`Decompressor.RoundTrip`);
- the FAAD reader is a cursor in a zero-padded list of bits (`FaadBits.Bitfile`).

Code that changes things step by step is imperative Dafny over arrays and classes; what it computes is specified by
functions on sequences, and the laws are lemmas about those functions.  There is one module for each component, in a
file of its name.  `dafny verify dfyconfig.toml` checks everything.

| modules | what they hold |
|---|---|
| Permutations, Rotations, Counting, Rearrange, Bits | the vocabulary: permutations, cyclic comparison, ranks, rearrangement, bit strings |
| ThreeWay, QSortStack, FallbackQSort, FallbackSort | the fallback sort |
| MainCompare, MainQSort, ScanTheory, PointerScan, MainSort, BlockSort | the main sort and the choice between the two |
| InverseBwt, SmallMode, BlockOutput | undoing the sort in either memory mode, and writing a block out |
| MoveToFront, GenerateMtf, SegmentedList | move-to-front and zero runs on both sides |
| HuffmanHeap, HuffmanTree, OptimalCodes, CodeLengths, CanonicalCodes, ChooseTables | Huffman codes |
| BitIO, BlockFormat, SendBlock, OutputRoom, CompressBlock, RunLength, Compressor | writing |
| DecodeMachine, FormatRoundTrip, TableRoundTrip, SymbolRoundTrip, StreamDecoding, Passages | the abstract parser and the round trip of the format |
| BlockGrammar, ParserExact, StreamExact | the format as a grammar, and that the parser accepts exactly that |
| ParserState, ColumnStore, BlockParser, Decompressor, Completion, BuffToBuff | the parser as it is, the decompressor, and the one-call interface |
| FaadBits | the FAAD bit reader |

The checksum is an uninterpreted fold over bytes, shared by both sides.  Label numbers, limits and constants are those of
the source.

## Findings

- `ext/bzip2/compress.c:133-140` says there are never more symbols than block bytes.  There can be one more, the end
  mark: `MoveToFront.SymbolCountExact` says exactly when, `MoveToFront.OneSymbolMore` gives the smallest block.  The
  conclusion drawn there, that no pointer is overwritten while it is needed, holds all the same
  (`GenerateMtf.GenerateMtfValues`).
- `ext/bzip2/blocksrt.c:1056-1061` says the stream does not depend on which sort ran.  The last column does not
  (`InverseBwt.LastColumnUnique`), but that both listings are sorted fixes the start row only for blocks that are not a
  smaller block repeated (`BlockSort.OrigPtrFixedIff`).  Every start row decodes to the same block.
- `ext/bzip2/bzlib.c:1277-1290` reports a full buffer as such except when there is nothing to compress and no space at
  all: then the finishing call makes no progress and the result is a sequence error (`BuffToBuff.Compress`).

## Model

| member | source | states |
|---|---|---|
| FallbackQSort.QSort3 | ext/bzip2/blocksrt.c:92-180 | Sorts one bucket by equivalence class in place: the segment is rearranged and ordered by class, nothing outside it moves, and the explicit stack never reaches its fixed size (assertion 1004) |
| FallbackSort.BucketedSorted | ext/bzip2/blocksrt.c:245-313 | When rows are bucketed by their first H bytes, and H covers the block or every row has a bucket of its own, they are in order of whole rotations |
| FallbackSort.RefineBucket | ext/bzip2/blocksrt.c:291-305 | Prefix doubling: sorting a bucket of common H-byte prefix by the classes of the rotations H further on orders it by 2H bytes, and marking class changes marks exactly where those prefixes change |
| FallbackSort.RefinePass | ext/bzip2/blocksrt.c:261-313 | One pass turns rows sorted and marked by H bytes into rows sorted and marked by 2H bytes |
| FallbackSort.RefineAll | ext/bzip2/blocksrt.c:245-313 | The passes end, with all rotations in order |
| FallbackSort.Reconstruct | ext/bzip2/blocksrt.c:315-328 | The block destroyed by the classes is rebuilt from the sorted rows; assertion 1005 never fails |
| FallbackSort.Sort | ext/bzip2/blocksrt.c:211-329 | The rows list all rotations once each, in non-decreasing order, and the block is what it was |
| MainCompare.GtU | ext/bzip2/blocksrt.c:345-469 | Under sound quadrants the answer is right up to equal rotations (true only if not less, false only if not greater), and no index beyond the 34 bytes of overshoot is read, from any depth up to 15 |
| MainQSort.SimpleSort | ext/bzip2/blocksrt.c:484-560 | Shell sort of a short or deep segment: a rearrangement in rotation order, unless the budget gives out |
| MainQSort.SplitWeight | ext/bzip2/blocksrt.c:700-737 | What a partition pushes weighs less than what it replaces, so the sort without recursion ends |
| MainQSort.SplitShallow | ext/bzip2/blocksrt.c:718-737 | Pushing the largest part first halves what every second stack level may hold, so the stack stays below 64 of its 100 entries |
| MainQSort.QSort3 | ext/bzip2/blocksrt.c:620-745 | Rows that share d bytes are put in rotation order by three-way partition of the next byte; assertion 1001 never fails; with a spent budget they are at least a rearrangement |
| ScanTheory.RegionFull | ext/bzip2/blocksrt.c:911-934 | Every rotation with two-byte key (u, c) is the predecessor of exactly one rotation met by the two scans, unless the block is all c |
| ScanTheory.RegionOrder | ext/bzip2/blocksrt.c:911-934 | Predecessors found by the forward scan are not greater than those found by the backward scan |
| PointerScan.ReadInOrder | ext/bzip2/blocksrt.c:911-934 | Predecessors collected from both ends, read as one bucket, are distinct rotations of its key in order |
| PointerScan.StepLow | ext/bzip2/blocksrt.c:918-925 | One step of the forward scan writes the predecessor at the next free row of its bucket and keeps all that has been received |
| PointerScan.ScanEnd | ext/bzip2/blocksrt.c:911-940 | When the cursors meet, every small bucket [u, ss] of an unfinished u is sorted though none of its rows was compared, and the end test of line 937 holds |
| MainSort.ScanBucket | ext/bzip2/blocksrt.c:911-940 | Step 2 in place: the scan over the big bucket from both ends leaves all buckets [u, ss] sorted |
| MainSort.NumberedSound | ext/bzip2/blocksrt.c:948-1004 | Numbering a sorted big bucket keeps the quadrant meaning: for equal bytes a smaller quadrant means a rotation that is not greater |
| MainSort.UpdateQuadrants | ext/bzip2/blocksrt.c:948-1004 | Step 3 in place, overshoot area included, keeps the quadrants sound and those of unfinished buckets zero; assertion 1002 never fails |
| MainSort.RunningOrder | ext/bzip2/blocksrt.c:833-862 | The order in which the big buckets are taken is a permutation of the byte values |
| MainSort.FinishBucket | ext/bzip2/blocksrt.c:868-1006 | A whole turn: small buckets sorted, the column filled by the scan, the bucket numbered; all earlier results stay |
| MainSort.Sort | ext/bzip2/blocksrt.c:750-1010 | If the budget is not spent, the rows list all rotations once each in non-decreasing order; the block is what it was either way |
| BlockSort.SortBlock | ext/bzip2/blocksrt.c:1031-1090 | Whichever sort runs, with whatever work factor, the rows are sorted, the start row holds rotation 0 (assertion 1003) and the block is restored |
| BlockSort.AnySortDecodes | ext/bzip2/blocksrt.c:1043-1088 | Any two sorted listings of a block give the same last column, and either start row decodes it to the block |
| BlockSort.OrigPtrFixedIff | ext/bzip2/blocksrt.c:1056-1061 | Sortedness fixes the start row if and only if the block is not a smaller block repeated |
| BlockSort.OrigPtrNotFixed | ext/bzip2/blocksrt.c:1056-1061 | The smallest block with two start rows |
| InverseBwt.LinkAdvances | ext/bzip2/decomprs.c:557-573 | One link leads from a row to the row of its next rotation, equal rotations counted as one |
| InverseBwt.WalkSpells | ext/bzip2/decomprs.c:557-573 | From any row equal to rotation i, the walk along the links spells the block cyclically from i |
| InverseBwt.WalkInverts | ext/bzip2/decomprs.c:557-573 | For every block, every sorted listing and every row equal to rotation 0, the walk along the links gives back the block |
| InverseBwt.LastColumnUnique | ext/bzip2/blocksrt.c:1043-1078 | The last column does not depend on the sorted listing, however equal rotations are ordered |
| InverseBwt.CumulativeCounts | ext/bzip2/decomprs.c:494-516 | The running totals are the numbers of smaller bytes, and none of the range checks fails on counts of a column |
| InverseBwt.BuildLinks | ext/bzip2/decomprs.c:557-564 | In one pass over tt the stable order of the column is packed above its bytes; every link field is empty when it is filled |
| SmallMode.SetLink | ext/bzip2/bzlibprv.h:458-473 | Writing a 20-bit link into 16 + 4 bits reads back as that link and leaves all others alone |
| SmallMode.BuildForward | ext/bzip2/decomprs.c:524-535 | The packed links hold, row by row, the place of its byte in the stable order |
| SmallMode.ReverseCycle | ext/bzip2/decomprs.c:537-546 | Pointer reversal ends when it is back at the start row, however many cycles there are, and every link of that cycle is turned round |
| SmallMode.IndexIntoF | ext/bzip2/bzlib.c:687-701 | The binary search finds the byte whose bucket holds the row |
| SmallMode.SmallIsFast | ext/bzip2/bzlibprv.h:444-479 | On the reversed cycle small mode follows the same rows and finds the same bytes as fast mode |
| BlockOutput.BlockSource.Get | ext/bzip2/bzlibprv.h:444-479 | In either mode each call returns the next byte of the block |
| BlockOutput.BlockWriter.Write | ext/bzip2/bzlib.c:535-804 | Output of a block in calls of any size: what was written followed by what remains is what the block spells, a call stops only when the space is full or the block is finished, and damage is reported only of a block whose last run lacks its count |
| MoveToFront.SymbolCountExact | ext/bzip2/compress.c:133-140 | There is one symbol more than block bytes exactly when no entry, counting the head of the list, comes three times in a row |
| MoveToFront.OneSymbolMore | ext/bzip2/compress.c:133-140 | The smallest block with one symbol more than bytes |
| MoveToFront.DigitsFeed | ext/bzip2/decomprs.c:379-396 | The RUNA/RUNB digits of a run add up to exactly its length in the es/N loop and never meet the 2M limit |
| MoveToFront.SymbolsDecode | ext/bzip2/decomprs.c:375-487 | Decoding the symbols of any column, whatever the entries behind the bytes in use, gives back the column |
| GenerateMtf.MakeMapsD | ext/bzip2/decomprs.c:26-37 | seqToUnseq lists the bytes in use, ascending |
| GenerateMtf.GenerateMtfValues | ext/bzip2/compress.c:119-231 | The symbols written as 16-bit values over the 32-bit row pointers are those of the last column, with their counts; no pointer is overwritten before it is read, though there can be one symbol more than bytes |
| SegmentedList.MtfArena.MoveToFront | ext/bzip2/decomprs.c:423-475 | The sixteen sliding sublists behave as one list: the entry at nn is returned and moved to the front; when the arena is used up it is rebuilt without changing the list |
| SegmentedList.MtfArena.Rebuild | ext/bzip2/decomprs.c:461-471 | The top-down rebuild preserves the list |
| SegmentedList.MtfArena.Init | ext/bzip2/decomprs.c:358-370 | The list starts as all bytes in order |
| HuffmanHeap.Insert | ext/bzip2/huffman.c:33-42 | Up-heap keeps the heap and adds exactly the node |
| HuffmanHeap.ExtractMin | ext/bzip2/huffman.c:44-59 | Removing the top and down-heap keeps the heap; the node removed is of least weight |
| HuffmanTree.TreeKraft | ext/bzip2/huffman.c:106-137 | The leaf depths of every tree built by joining satisfy the Kraft equality |
| CodeLengths.AddParts | ext/bzip2/huffman.c:28-31 | Adding packed weights adds the weights and takes one more than the larger depth; neither part runs into the other |
| CodeLengths.HeightBound | ext/bzip2/huffman.c:106-122 | A tree of weight below 2^23 has Fibonacci-bounded height, so the depth byte never overflows |
| CodeLengths.DeepIsHeavy | ext/bzip2/huffman.c:124-137 | A leaf deeper than the limit means weights that rescaling still lowers |
| CodeLengths.FlattenWeights | ext/bzip2/huffman.c:141-146 | Rescaling keeps all weights positive and strictly lowers their sum |
| CodeLengths.MakeCodeLengths | ext/bzip2/huffman.c:63-148 | For every frequency table the rescaling ends, with all lengths in 1..maxLen and Kraft equality.  No prefix code, of whatever lengths, spends fewer bits on symbols of these frequencies if some optimal code keeps within maxLen; otherwise this holds after every frequency f has been replaced by 1 + f/2 exactly as often as no optimal code did |
| OptimalCodes.JoinAsGood | ext/bzip2/huffman.c:106-122 | Exchange argument: whatever code is given for the open nodes, joining the two least leaves room for one that is at least as good, in cost and, at equal cost, in depth |
| OptimalCodes.HuffmanBest | ext/bzip2/huffman.c:106-137 | The leaf depths of a tree grown by joining the two least roots: no prefix code costs less, and one that costs as little has a word as long as the tree is high, because ties go to the lower node |
| OptimalCodes.OptimalOrder | ext/bzip2/huffman.c:63-148 | In an optimal code a symbol seen more often has no longer a word |
| CodeLengths.LongLeaf | ext/bzip2/huffman.c:124-141 | The frequencies are halved only when no optimal code for them keeps within maxLen |
| CanonicalCodes.PrefixFree | ext/bzip2/huffman.c:152-166 | No code word begins another, for all lengths whose Kraft sum is at most one |
| CanonicalCodes.AssignCodes | ext/bzip2/huffman.c:152-166 | The codes assigned are the canonical ones |
| CanonicalCodes.CreateDecodeTables | ext/bzip2/huffman.c:170-200 | limit, base and perm are the last code, the offset and the symbols by length, and zero or plain counts outside the lengths used |
| CanonicalCodes.TablesDecode | ext/bzip2/decomprs.c:88-101 | The decoding loop stops on a code word at exactly its length and finds its symbol |
| ChooseTables.Choose | ext/bzip2/compress.c:271-457 | Every selector names a table, every table has legal lengths and decodable codes, and there are at most 18002 selectors (assertions 3002 and 3003).  The plan comes from four rounds; in each, every group goes to the first of the tables cheapest for it, and every table then is the best code within 17 bits for the symbols of its groups |
| ChooseTables.GroupsGrow | ext/bzip2/compress.c:271-277 | The number of tables never falls with the number of symbols, and rises at 200, 600, 1200 and 2400 |
| BitIO.BitWriter.Put | ext/bzip2/compress.c:57-78 | Appends exactly the n bits of v, with fewer than 32 live |
| BitIO.BitWriter.FinishWrite | ext/bzip2/compress.c:45-54 | The bytes are the bits written, padded with fewer than eight zeros |
| BitIO.BitReader.GetBits | ext/bzip2/decomprs.c:43-66 | The value of the next n bits, or none when the input ends first; no bit is lost either way, and no byte is taken that is not needed |
| BitIO.FieldsReadBack | ext/bzip2/compress.c:71-78 | Fields read with their widths return every value, whatever follows |
| BitIO.FieldsThrough | ext/bzip2/compress.c:45-78 | Fields put through the write buffer, with the output area emptied wherever the caller likes, closed and handed to a reader, come back in order |
| SendBlock.SendMap | ext/bzip2/compress.c:494-512 | The mapping table is written as sixteen group marks and the marks of the groups in use |
| SendBlock.SendSelectors | ext/bzip2/compress.c:461-478 | The selectors are written move-to-front coded in unary |
| SendBlock.SendTables | ext/bzip2/compress.c:528-541 | The code lengths are written as steps up and down |
| SendBlock.SendSymbols | ext/bzip2/compress.c:544-594 | Every symbol is written as its word in the table its group selects; assertions 3006 and 3007 never fail |
| SendBlock.SendMtfValues | ext/bzip2/compress.c:238-598 | The bits of mapping, selectors, tables and symbols of a plan that is legal for the block |
| OutputRoom.RecLength | ext/bzip2/compress.c:602-650 | A block of n bytes takes at most 20 n + 6 (n + 50) / 50 + 60817 bits, and no more selectors than the decoder has room for |
| CompressBlock.WriteBlock | ext/bzip2/compress.c:602-650 | Sorting, symbols, tables and bits of one block, which itself stays as it was |
| CompressBlock.RecDecodes | ext/bzip2/compress.c:602-650 | End to end for one block: what is written is parsed back and walked back to the run-length coded block |
| BlockGrammar.DecidesWord | ext/bzip2/decomprs.c:88-101 | Whatever the code lengths, over-subscribed ones included, the decoding loop stops only on the code word of its symbol |
| BlockGrammar.LegalDrives | ext/bzip2/decomprs.c:222-489 | Every legal block is accepted: any group table that covers the bytes in use, any steps within 1..20 to each code length, any tables whose words can be found, more selectors than needed |
| ParserExact.BlockExact | ext/bzip2/decomprs.c:222-489 | The parser hands over exactly the legal blocks: for all bits it arrives at a block if and only if they are the block magic, checksum, randomised bit and start row, group marks, 2 to 6 tables, selectors, code lengths and code words of a legal block for it, followed by what is left |
| ParserExact.EndExact | ext/bzip2/decomprs.c:580-611 | It arrives at the end of the stream if and only if the bits are the end mark and a checksum |
| StreamExact.MagicExact | ext/bzip2/decomprs.c:195-209 | An input is taken for no bzip2 stream exactly if one of its first four bytes is wrong |
| StreamExact.StreamExactly | ext/bzip2/decomprs.c:195-611 | It goes through to the end exactly on streams: header, legal blocks, trailer, whatever is behind them |
| StreamExact.ErrorIsFinal | ext/bzip2/decomprs.c:195-611 | When it reports an error, nothing that may follow makes the input a stream |
| FormatRoundTrip.MappingDrives | ext/bzip2/decomprs.c:266-284 | The mapping bits lead the parser to exactly the bytes in use |
| TableRoundTrip.SelectorsDrive | ext/bzip2/decomprs.c:286-314 | The selector bits lead the parser to exactly the selectors |
| TableRoundTrip.WalksDrive | ext/bzip2/decomprs.c:316-329 | However the lengths are stepped to, within range, the parser ends up with them |
| TableRoundTrip.TablesDrive | ext/bzip2/decomprs.c:316-329 | The length bits lead the parser to exactly the lengths |
| SymbolRoundTrip.SymbolsDrive | ext/bzip2/decomprs.c:372-487 | The code words of all groups lead the parser to exactly the symbols |
| SymbolRoundTrip.BlockParses | ext/bzip2/decomprs.c:222-489 | All bits of a block lead the parser to exactly its last column and start row |
| DecodeMachine.ExecResumes | ext/bzip2/decomprs.c:39-66 | For the abstract parser, interrupting a run at any point and going on later changes nothing |
| RunLength.ExpandRuns | ext/bzip2/bzlib.c:215-247 | Blocks of runs that are split only at 255 spell exactly the runs |
| RunLength.RunEncoder.AddChar | ext/bzip2/bzlib.c:260-285 | Finished runs and the pending one always spell the bytes taken in; one byte puts at most one run of five bytes into the block |
| RunLength.RunEncoder.FlushRL | ext/bzip2/bzlib.c:251-256 | Nothing is pending afterwards, and nothing is lost |
| Compressor.Compressor.CopyInputUntilStop | ext/bzip2/bzlib.c:288-329 | Takes a prefix of the input, keeps the expected amount in step, and stops only for a full block or the end of the input |
| Compressor.Compressor.CopyOutputUntilStop | ext/bzip2/bzlib.c:333-356 | Hands over finished bytes in order, as far as there is space |
| Compressor.Compressor.CompressBlock | ext/bzip2/compress.c:602-667 | Header, block and trailer follow what was written before, and all of it fits in the work area behind the block |
| Compressor.Compressor.HandleCompress | ext/bzip2/bzlib.c:360-403 | Ends, and stops only for want of space, for want of input, or with a flush or finish complete; blocks are ended only when they are full, but for the last one of a flush or finish |
| Compressor.Compressor.Compress | ext/bzip2/bzlib.c:407-464 | Every sequence of calls: the stream end is announced exactly when all input is in, nothing is pending and the whole stream has been delivered; a running call takes all input unless the space is full, and is OK exactly if it took or gave something; a flush or finish is complete, or the space is full and something is left to do; wrong actions and amounts are refused without effect; after the end every call is refused |
| BlockParser.DState.StepMapping2 | ext/bzip2/decomprs.c:276-284 | The segment after a mapping bit does what the abstract parser does, on the arrays |
| BlockParser.DState.UndoSelectors | ext/bzip2/decomprs.c:302-314 | The selectors in the array are the move-to-front decoding of those read |
| BlockParser.DState.StepCoding2 | ext/bzip2/decomprs.c:316-329 | The segment after a length bit: one more length, one more group, or all tables built and the symbols begun |
| BlockParser.DState.BuildTables | ext/bzip2/decomprs.c:331-347 | The tables of every group are right wherever the decoding loop may look |
| BlockParser.DState.StartCode | ext/bzip2/decomprs.c:73-87 | A new table every fifty symbols, from the saved pointers in between |
| BlockParser.DState.Look | ext/bzip2/decomprs.c:88-101 | One turn of the decoding loop on the limit, base and perm tables |
| BlockParser.DState.RunDigit | ext/bzip2/decomprs.c:379-396 | A run digit in the es/N counters |
| BlockParser.DState.FlushRun | ext/bzip2/decomprs.c:398-417 | The run is written to the column with its count, or does not fit in the block size |
| BlockParser.DState.MoveOne | ext/bzip2/decomprs.c:421-485 | A list position in the sublist arena, written to the column |
| BlockParser.DState.EndBlock | ext/bzip2/decomprs.c:488-578 | The end of a block: the start row is checked and the links are built in place, for either memory mode |
| BlockParser.DState.Step | ext/bzip2/decomprs.c:195-611 | Every segment from one GET_BITS label to the next takes the saved variables, tables and arrays to those of the next abstract state |
| BlockParser.DState.Decompress | ext/bzip2/decomprs.c:106-644 | From variables with arbitrary values, reloaded from the 24 saved ones, the parser goes on exactly where the abstract one stands and as far as the bits allow; what it saves on the way out matches the new state |
| ParserState.TablesAgree | ext/bzip2/huffman.c:170-200 | The arrays built from a row of lengths agree with limit, base and symbol as functions of the lengths, also for windows longer than the longest code |
| ParserState.LookUp | ext/bzip2/decomprs.c:88-101 | Looking a window up in the arrays decides as the abstract parser does |
| ColumnStore.Column.PushRun | ext/bzip2/decomprs.c:398-417 | A run goes into the column if and only if it fits in the block size |
| ColumnStore.Column.Link | ext/bzip2/decomprs.c:494-566 | Totals and links of the column read, for either memory mode |
| StreamDecoding.ThroughResumes | ext/bzip2/bzlib.c:808-858 | Over any number of blocks, interrupting the input anywhere changes neither the blocks found nor where the parser ends |
| StreamDecoding.StreamDecodes | ext/bzip2/decomprs.c:195-611 | A stream the compressor made is parsed block by block to its end, and the blocks decode to the data |
| Passages.CleanPrefix | ext/bzip2/bzlib.c:808-858 | Every part of an input that passes all checks passes them as far as it goes |
| Passages.StreamClean | ext/bzip2/bzlib.c:822-848 | A stream the compressor made passes every check: format, block checksums and combined checksum |
| Decompressor.Decompressor.Decompress | ext/bzip2/bzlib.c:808-858 | Any input in any pieces with any output space: it ends, stops only for want of input or space, at the end of a stream that passed every check and has been delivered whole, or with the fault that the diagnosis of the input names; after the end every call is refused |
| Decompressor.AnswerIsDiagnosis | ext/bzip2/bzlib.c:808-858 | Unless the space ran out inside a block, the answer is the diagnosis of all input so far: that of its first block which is randomised, cannot be undone or has a wrong checksum, else magic error, format error, wrong combined checksum, end, or nothing yet |
| Decompressor.MagicAnswer | ext/bzip2/decomprs.c:195-209 | The magic error is reported exactly if one of the first four bytes is wrong |
| Decompressor.EndIsStream | ext/bzip2/bzlib.c:820-848 | The end is announced only of input that is a stream of the grammar |
| Decompressor.RestIsLeft | ext/bzip2/decomprs.c:43-66 | Input behind the end of a stream is left to the caller, to the byte |
| Decompressor.EverySlicing | ext/bzip2/bzlib.c:808-858 | Fed a stream the compressor made, in any pieces and with any space, no call reports a fault, the output is always the beginning of the data, the end comes with all of it, and once all input is in only space that ran out first delays it |
| Decompressor.RoundTrip | ext/bzip2/bzlib.c:407-858 | Decompression undoes compression, however both sides were fed and drained |
| BuffToBuff.Compress | ext/bzip2/bzlib.c:1247-1295 | Either a whole stream of the source, or the space is full; that is reported as a sequence error if and only if there is neither source nor space, and otherwise dest is the beginning, not the whole, of a stream of the source |
| Completion.Completable | ext/bzip2/bzlib.c:1277-1290 | What an unfinished compressor has delivered can always be completed to a stream of all its input |
| BuffToBuff.Decompress | ext/bzip2/bzlib.c:1299-1350 | For every source: success only for a stream that passed every check, with all its data; a fault is the one the diagnosis names; unexpected end exactly if nothing is wrong but the end is missing and the data leaves room; a full buffer only if there is more, or the data of a broken-off source exactly fills it |
| BuffToBuff.StreamOutcome | ext/bzip2/bzlib.c:1299-1350 | On a stream the compressor made it succeeds if and only if the data fits, with the data; otherwise the buffer holds its beginning |
| FaadBits.GetDwordN | ext/faad/bits.h:111-141 | Fewer than four bytes at the end of the buffer are the top of the zero-padded word |
| FaadBits.WindowIs | ext/faad/bits.h:143-154 | The two words held are the stretch of bits at the cursor |
| FaadBits.Bitfile.InitBits | ext/faad/bits.c:38-85 | The cursor is at 0; an empty buffer only raises the error flag |
| FaadBits.Bitfile.ShowBits | ext/faad/bits.h:143-154 | The value of the next bits, zero-padded past the end of the buffer |
| FaadBits.Bitfile.FlushBitsEx | ext/faad/bits.c:109-130 | Refilling moves the cursor on by exactly the bits asked for |
| FaadBits.Bitfile.GetBits | ext/faad/bits.h:171-187 | The value of the n bits at the cursor, which moves behind them |
| FaadBits.Bitfile.Get1Bit | ext/faad/bits.h:189-208 | The bit at the cursor, which moves behind it |
| FaadBits.Bitfile.GetProcessedBits | ext/faad/bits.c:92-95 | The cursor, in 32 bits |
| FaadBits.Bitfile.ByteAlign | ext/faad/bits.c:97-107 | The cursor moves to the next byte boundary, by the number of bits returned |
| FaadBits.Bitfile.RewindBits | ext/faad/bits.c:132-161 | The cursor is at 0 again |
| FaadBits.Bitfile.ResetBits | ext/faad/bits.c:163-204 | The cursor is at the given bit, also beyond the end of the buffer |
| FaadBits.Bitfile.GetBitBuffer | ext/faad/bits.c:206-229 | The bytes returned are the bits at the cursor, the last byte filled up with zeros |
| FaadBits.ReadsInside | ext/faad/bits.h:171-187 | Inside the buffer, what is read are the bits of its bytes in order |
| FaadBits.ReadsZeroBeyond | ext/faad/bits.h:171-187 | Beyond the end of the buffer every read gives zero |
| FaadBits.ReadsJoin | ext/faad/bits.h:171-187 | Two reads in a row give the digits one longer read would have given |

## Left out

- Randomised blocks: the parser reads them, the decompressor stops there with a status of its own; the encoder never makes them.
- Stale tables: on a damaged stream the source can read a perm entry that an earlier block left there, when a window lies between the alphabet size and 258; here that is a data error.
- Calls after an error, and a decompressor used on without being ended.
- Memory allocation: the arrays of the column are made for the largest block at once, with the bounds of the declared block size proved; allocator callbacks and failures are not modelled.
- Selectors: the arrays hold as many as a 15-bit count can give, where the source has 18002; `OutputRoom.RecLength` shows that no stream the compressor makes has more.
- BlockOutput.BlockWriter.Write: one loop in the order of the fast routine for both modes; the small routine tests the output space before it starts a run, and so may start the same run one call later.
- Compressor.Compressor.CompressBlock: the compressed bytes are a growing sequence that is proved to fit in the work area; that it shares the area with the block and the symbols is not modelled.
- Shared storage: eclass with the block, quadrant behind the block, and the byte view of words are separate arrays; the bits of bhtab are an array of truth values, scanned in words of 32.
- Hand-unrolled copies are written as loops, macros as methods, shifts and masks as arithmetic; the bitwise or of disjoint bits is a sum.
- Code lengths, codes and tables of one group are sequences held in fields, where the source has two-dimensional arrays; the decoder's column, counts and links are in an object of their own.
- MainSort.RunningOrder: only that it is a permutation; that smaller buckets come first affects speed alone.
- ChooseTables.Choose: which tables the first round starts from; they affect compression alone.
- MainCompare.GtU: the amount by which the budget falls; the running time of the sorts.
- 32-bit totals of bytes in and out, verbosity output, parameter checks for null pointers and ranges, and version strings.
- The checksum table, `crctable.c`, and the checksum as arithmetic.
- BZFILE and everything else on files in `bzlib.c`, `bzip2.c`, `bzip2rec.c` and `randtabl.c`.
- FAAD: reading after a failed initialisation, a null buffer (the same as an empty one), reversed reading, the HCR reader, the DRM checksum, and everything behind the bit reader.
- The last byte of `faad_getbitbuffer` when the count is a multiple of eight: the source returns one more byte than it fills.
- All other parts of the repository.
