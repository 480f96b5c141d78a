# A model of the QR Code encoder, the blockchain store and the batch guard

Three parts of the system are modelled and specified in Dafny.

**The QR Code encoder** (`external/qrcodegen`). Text becomes segments, segments a padded bit
stream, the stream data codewords, these Reed-Solomon blocks, the blocks an interleaved sequence,
the sequence a grid under a mask. The imperative encoder keeps the form of the original: a bit
buffer that is appended to, arrays changed in place in the Reed-Solomon loops, and a symbol class
whose grids are drawn cell by cell. Each stage has an independent reader or an algebraic
description, and the main statement is that a reader that sees nothing but the finished grid gets
the segments back (`Encoder.EncodedSegmentsAreRead`). The names of the stages follow sections 7.4
to 7.9 of ISO/IEC 18004:2015.

**The blockchain store** (`src/blockchain_db`). Adding and popping blocks over linked tables of
blocks, transactions, outputs and spent key images, with the storage primitives behaving as the
LMDB backend does, and the relay state of pool transactions in its five flag bytes. `ChainSteps`
says what each operation does to the tables, `ChainStore` is the object that does it, and the other
`Chain` modules say what follows for whole blocks and whole runs.

**The batch guard** (`src/blockchain_db/locked_txn.h`). Nested guards over one write batch whose
ends may throw, as a state machine over runs.

| modules | content |
|---|---|
| `Basics`, `Results`, `Counting`, `Grids` | shared types, counting of cell sets, grids |
| `BitBuffers`, `Segments`, `SegmentStream`, `Texts` | bits, segments, streams, texts |
| `Gf256`, `ReedSolomon`, `ErrorTolerance`, `Interleave`, `Recovery`, `Codewords` | error correction and codewords |
| `Capacity`, `CapacityTables`, `Patterns`, `PatternMeaning`, `CheckWords` | tables, function patterns, format and version words |
| `ZigZag`, `Masking`, `Penalty`, `PenaltyMeaning`, `Symbols`, `Room` | scan, masks, penalty, finished grids |
| `QrCodes`, `Encoder`, `Decoder` | the symbol class, the encoder, the reader |
| `RelayState` | relay methods of pool transactions |
| `BatchGuards` | database batches and guards |
| `ChainTables`, `ChainSteps`, `ChainStore` | tables, effect of the operations, the store |
| `ChainUndo`, `ChainBlocks`, `ChainRemovals`, `ChainCases` | undoing transactions and blocks, and when that fails |
| `ChainAdmission`, `ChainReads`, `ChainRct` | what is accepted, what can be read back, the count of amount-0 outputs |
| `ChainRuns`, `ChainPops`, `ChainFixup` | whole runs, which pops succeed, the repair of old stores |

## Where the code falls short of what it is for

- A transaction's outputs are stored under amount 0 if it is version 2 and *some* input generates
  (`src/blockchain_db/blockchain_db.cpp:233`), but they are looked for under amount 0 at removal
  only if its *single* input generates (`src/blockchain_db/lmdb/db_lmdb.cpp:1155`). So for a version 2
  transaction with a generation input among several and an amount that is not zero, popping does not
  undo adding. `ChainUndo.TransactionUndoneIff` and `ChainBlocks.PopUndoesAddIff` give the exact
  condition. Such a pop can fail (`ChainCases.PopCanFail`), or succeed by taking away an output of an
  earlier block (`ChainCases.PopCanTakeEarlierOutput`); `ChainRemovals.PopBlockIff` and
  `ChainPops.RunPopIff` say exactly when it succeeds. Blocks, transactions and spent keys are restored
  even then.
- When a batch's commit fails, the backend has already discarded the batch, but the guard keeps
  thinking it holds one (`src/blockchain_db/locked_txn.h:47`). A later call on it can end a batch
  that another guard opened: `BatchGuards.FailedCommitCanEndInnerBatch`, with the exact condition in
  `BatchGuards.OnlyOpenersEndBatchesIff`.
- The category of transactions reported to legacy peers is not kept under upgrades, unlike the two
  others: `RelayState.LegacyCanBeLost`, with the exact condition in `RelayState.LegacyIsLostIff`.

## Model

| member | source | states |
|---|---|---|
| `Gf256.Multiply` | external/qrcodegen/QrCode.cpp:772-782 | the shift-and-xor loop on 16 bits never leaves 8 bits and computes the product in GF(2^8) modulo 0x11D |
| `Gf256.MulCommutes` | external/qrcodegen/QrCode.cpp:772-782 | the product is commutative |
| `Gf256.MulAssociates` | external/qrcodegen/QrCode.cpp:772-782 | the product is associative |
| `Gf256.MulDistributes` | external/qrcodegen/QrCode.cpp:772-782 | the product distributes over exclusive or, on both sides |
| `Gf256.MulUnits` | external/qrcodegen/QrCode.cpp:772-782 | 0 absorbs and 1 is neutral, on both sides |
| `ErrorTolerance.NoZeroDivisors` | external/qrcodegen/QrCode.cpp:772-782 | a product is zero only if a factor is |
| `ErrorTolerance.GeneratorOrder` | external/qrcodegen/QrCode.cpp:751 | the powers of 2 return to 1 after exactly 255 steps |
| `ReedSolomon.ComputeDivisor` | external/qrcodegen/QrCode.cpp:734-756 | the in-place loop yields the coefficients of (x - 2^0)...(x - 2^(n-1)) without the leading 1, and fails exactly for degrees outside 1..255 |
| `ReedSolomon.TimesLinearInPlace` | external/qrcodegen/QrCode.cpp:745-750 | one pass over the array multiplies by x + root, dropping the leading term |
| `ReedSolomon.GeneratorValue` | external/qrcodegen/QrCode.cpp:734-756 | at every point the generator polynomial equals the product of the differences to its roots |
| `ReedSolomon.GeneratorIsMonic` | external/qrcodegen/QrCode.cpp:734-756 | its leading coefficient is 1 |
| `ReedSolomon.ComputeRemainder` | external/qrcodegen/QrCode.cpp:759-769 | the shift register computes the remainder |
| `ReedSolomon.DivisionIdentity` | external/qrcodegen/QrCode.cpp:759-769 | data times x^n is quotient times divisor plus remainder, for data of any length and any monic divisor |
| `ReedSolomon.RemainderIsUnique` | external/qrcodegen/QrCode.cpp:759-769 | any other quotient and remainder of that size are the same ones |
| `ReedSolomon.MessageWithCheckIsCodeword` | external/qrcodegen/QrCode.cpp:734-769 | data followed by its remainder vanishes at 2^0, ..., 2^(n-1), for every data sequence and degree |
| `ErrorTolerance.MinimumDistance` | external/qrcodegen/QrCode.cpp:734-769 | two different codewords of equal length up to 255 differ in more places than there are check bytes |
| `ErrorTolerance.UniqueNearestCodeword` | external/qrcodegen/QrCode.cpp:734-769 | a word with at most half as many errors as check bytes has only one nearest codeword |
| `BitBuffers.BitBuffer.AppendBits` | external/qrcodegen/QrCode.cpp:855-860 | appends exactly the low bits of the value, highest first, and fails exactly when the length or the value is out of range |
| `BitBuffers.ValueOfBitsOf` | external/qrcodegen/QrCode.cpp:855-860 | reading an appended field gives the value back |
| `BitBuffers.HighestFirst` | external/qrcodegen/QrCode.cpp:855-860 | bit i of a field of len bits is bit len - 1 - i of the number |
| `Segments.MakeNumeric` | external/qrcodegen/QrCode.cpp:77-97 | digits become groups of 10, 7 or 4 bits; anything else is refused |
| `Segments.MakeAlphanumeric` | external/qrcodegen/QrCode.cpp:100-120 | characters of the set become groups of 11 or 6 bits; anything else is refused |
| `Segments.MakeBytes` | external/qrcodegen/QrCode.cpp:67-74 | 8 bits a byte; more than INT_MAX bytes are refused |
| `Segments.MakeEci` | external/qrcodegen/QrCode.cpp:141-156 | the three designator forms; values outside 0..999999 are refused |
| `Segments.BitLengths` | external/qrcodegen/QrCode.cpp:67-156 | the data lengths are 10(n/3) plus 0, 4 or 7; 11(n/2) + 6(n mod 2); 8n; and 8, 16 or 24 |
| `Segments.AlnumValueIs` | external/qrcodegen/QrCode.cpp:228 | a character is in the set if and only if it is a digit, a capital or one of nine signs, numbered 0-9, 10-35 and 36-44 in that order |
| `Segments.GroupValues` | external/qrcodegen/QrCode.cpp:77-120 | three digits count 100a + 10b + c, two 10a + b; two characters count 45a + b |
| `Segments.NumericRoundTrip` | external/qrcodegen/QrCode.cpp:77-97 | a reader gets every digit string back, whatever bits follow |
| `Segments.AlnumRoundTrip` | external/qrcodegen/QrCode.cpp:100-120 | a reader gets every alphanumeric string back, whatever bits follow |
| `Segments.BytesRoundTrip` | external/qrcodegen/QrCode.cpp:67-74 | a reader gets every byte string back, whatever bits follow |
| `Segments.EciRoundTrip` | external/qrcodegen/QrCode.cpp:141-156 | a reader tells the three forms apart and gets the designator back, whatever bits follow |
| `SegmentStream.GetTotalBits` | external/qrcodegen/QrCode.cpp:177-191 | the exact length of the stream, or -1 if and only if a count does not fit its field or the length exceeds INT_MAX |
| `SegmentStream.SegmentRoundTrip` | external/qrcodegen/QrCode.cpp:287-295 | mode, count and data of one segment read back, by a reader with its own mode numbers and field widths |
| `SegmentStream.SegmentLength` | external/qrcodegen/QrCode.cpp:42-64 | the length of one segment with its header, in closed form, for the version bands up to 9, up to 26 and above |
| `SegmentStream.StreamRoundTrip` | external/qrcodegen/QrCode.cpp:287-295 | every list of segments reads back in order, up to a terminator or fewer than 4 bits |
| `Capacity.NumRawDataModules` | external/qrcodegen/QrCode.cpp:711-724 | the module count, within 208..29648, for every version |
| `Capacity.BlockParameters` | external/qrcodegen/QrCode.cpp:529-541 | for every version and level the raw codewords are the data codewords plus the check bytes of all blocks, there is data, and no block comes near 255 bytes |
| `CapacityTables.TablesAgree` | external/qrcodegen/QrCode.cpp:826-843 | the two tables by version hold the same entries as by level |
| `Interleave.BlocksCoverData` | external/qrcodegen/QrCode.cpp:543-553 | the blocks take up the data bytes exactly, none twice and none left over |
| `Interleave.RowsCoverCodewords` | external/qrcodegen/QrCode.cpp:555-564 | the rows take up the raw codewords exactly |
| `Interleave.SplitBlocks` | external/qrcodegen/QrCode.cpp:543-553 | each block is its share of the data, a padding byte if short, and the remainder; all are equally long |
| `Interleave.AddEccAndInterleave` | external/qrcodegen/QrCode.cpp:529-565 | fails exactly on a wrong data length; otherwise the result is exactly the raw codewords and carries the data |
| `Interleave.CodewordsCarryData` | external/qrcodegen/QrCode.cpp:543-564 | every block of the result holds its data bytes and the check bytes of those, the padding nowhere |
| `Interleave.ReadDataRoundTrip` | external/qrcodegen/QrCode.cpp:529-565 | a de-interleaver gets the data back, for every block count and check length |
| `Interleave.EvenShares` | external/qrcodegen/QrCode.cpp:536-541 | the data bytes are shared out evenly, the shorter blocks first |
| `Interleave.DataByteAt` | external/qrcodegen/QrCode.cpp:555-564 | data byte i of block b stands at i * blocks + b, that of the extra row moved up by the number of shorter blocks |
| `Interleave.CheckByteAt` | external/qrcodegen/QrCode.cpp:555-564 | check byte k of block b stands k * blocks + b after all data bytes |
| `Recovery.EveryBlockIsCodeword` | external/qrcodegen/QrCode.cpp:543-564 | every block read from the interleaved codewords is a Reed-Solomon codeword |
| `Recovery.DamagedBlockIsRecovered` | external/qrcodegen/QrCode.cpp:529-565 | with at most half as many wrong bytes as check bytes in a block, the only codeword that near spells the data drawn, for every version and level |
| `Codewords.PackBytes` | external/qrcodegen/QrCode.cpp:310-313 | bits are packed into bytes, highest first |
| `Codewords.CodewordsRoundTrip` | external/qrcodegen/QrCode.cpp:310-313 | the bits of a byte sequence pack back into it |
| `Codewords.ByteSpelled` | external/qrcodegen/QrCode.cpp:814-816 | the bits of a byte come from the one worth 128 down to the one worth 1 |
| `ZigZag.IndexInScan` | external/qrcodegen/QrCode.cpp:568-593 | every cell outside column 6 is met by the scan, at the index given by a closed formula |
| `ZigZag.ScanHitsIndex` | external/qrcodegen/QrCode.cpp:568-593 | the cell met at step k has index k, so no cell is met twice: with the row above, the scan is a bijection |
| `ZigZag.ScanStarts` | external/qrcodegen/QrCode.cpp:573-583 | the scan starts in the bottom right corner, for every symbol size |
| `ZigZag.ScanCrosses` | external/qrcodegen/QrCode.cpp:578-582 | every second step goes to the left neighbour |
| `ZigZag.ScanTurns` | external/qrcodegen/QrCode.cpp:574-583 | the other steps go back right and one row up in the first pair of columns, down in the next, and so on; at the end of a pair the row is kept and the next pair follows, over column 6 |
| `ZigZag.ScanRoundTrip` | external/qrcodegen/QrCode.cpp:568-593 | for any marks, if there is room, reading the free cells in scan order gives back every bit drawn, and marked cells are unchanged |
| `Room.RankCounts` | external/qrcodegen/QrCode.cpp:568-593 | the number of free cells the scan meets is the size of the set of free cells |
| `Room.FunctionCellsCard` | external/qrcodegen/QrCode.cpp:416-442 | how many cells the function patterns take, in closed form, for versions 2 to 40 |
| `Room.RoomForCodewords` | external/qrcodegen/QrCode.cpp:711-724 | the free modules of every version are exactly as many as its raw data modules, so the final count check of the scan cannot fail |
| `QrCodes.QrCode.SetFunctionModule` | external/qrcodegen/QrCode.cpp:516-521 | one cell is coloured and marked |
| `QrCodes.QrCode.DrawTimingPatterns` | external/qrcodegen/QrCode.cpp:417-421 | the timing row and column |
| `QrCodes.QrCode.DrawFinderPattern` | external/qrcodegen/QrCode.cpp:496-505 | rings by distance from the centre, clipped to the grid; other cells as before |
| `QrCodes.QrCode.DrawAlignmentPattern` | external/qrcodegen/QrCode.cpp:508-513 | rings by distance from the centre; other cells as before |
| `QrCodes.QrCode.GetAlignmentPatternPositions` | external/qrcodegen/QrCode.cpp:695-708 | 6, then equal steps up to the far edge |
| `Patterns.AlignSpacing` | external/qrcodegen/QrCode.cpp:695-708 | the centres run from 6 to size - 7, at least 12 apart, for versions 2 to 40, so no two alignment patterns touch |
| `PatternMeaning.AlignStepIs` | external/qrcodegen/QrCode.cpp:695-708 | the step is the least even one with which the centres reach from the first to the last, but for version 32, whose centres are given |
| `QrCodes.QrCode.DrawAlignmentPatterns` | external/qrcodegen/QrCode.cpp:428-437 | all position pairs but the three finder corners |
| `QrCodes.QrCode.DrawFormatBits` | external/qrcodegen/QrCode.cpp:445-470 | both copies and the dark module; no unmarked cell changes |
| `QrCodes.FormatBits` | external/qrcodegen/QrCode.cpp:447-454 | the format word |
| `CheckWords.FormatWordsFarApart` | external/qrcodegen/QrCode.cpp:447-454 | any two of the 32 format words differ in at least seven places |
| `CheckWords.PlainFormatWord` | external/qrcodegen/QrCode.cpp:454 | the word of medium level and mask 0 is the whitening alone |
| `Decoder.FormatCopies` | external/qrcodegen/QrCode.cpp:456-469 | every finished symbol shows each format bit in both places, and the dark module |
| `QrCodes.QrCode.DrawVersion` | external/qrcodegen/QrCode.cpp:473-493 | both copies from version 7 on; nothing below |
| `QrCodes.VersionBits` | external/qrcodegen/QrCode.cpp:477-482 | the version word |
| `CheckWords.VersionWordsFarApart` | external/qrcodegen/QrCode.cpp:477-482 | any two version words differ in at least eight places |
| `Decoder.VersionCopies` | external/qrcodegen/QrCode.cpp:484-492 | every finished symbol from version 7 on shows each version bit in both blocks |
| `QrCodes.QrCode.DrawFunctionPatterns` | external/qrcodegen/QrCode.cpp:416-442 | the marks are exactly the cells of the patterns and the colours are those described cell by cell |
| `PatternMeaning.FinderIsRingAndSquare` | external/qrcodegen/QrCode.cpp:496-505 | a finder is a dark ring seven wide around a dark square three wide |
| `PatternMeaning.FinderIsSeparated` | external/qrcodegen/QrCode.cpp:496-505 | a light line separates it |
| `PatternMeaning.FindersAreAlike` | external/qrcodegen/QrCode.cpp:422-425 | the other two finders are mirror images in the corners right and below |
| `PatternMeaning.OnlyThreeFinders` | external/qrcodegen/QrCode.cpp:422-425 | finder modules are those of the three corners and no other |
| `PatternMeaning.FinderRuns` | external/qrcodegen/QrCode.cpp:496-505 | through the middle the modules run 1 : 1 : 3 : 1 : 1 along either axis |
| `PatternMeaning.TimingAlternates` | external/qrcodegen/QrCode.cpp:417-421 | timing modules alternate, starting dark next to the finder |
| `PatternMeaning.AlignmentIsRings` | external/qrcodegen/QrCode.cpp:508-513 | an alignment pattern is a dark module in a light ring in a dark ring |
| `QrCodes.QrCode.DrawCodewords` | external/qrcodegen/QrCode.cpp:568-593 | fails exactly on a wrong length; otherwise marked cells are unchanged and the k-th free cell in scan order shows bit k |
| `QrCodes.QrCode.DrawColumnPair` | external/qrcodegen/QrCode.cpp:574-589 | one column pair of the scan, up or down |
| `QrCodes.QrCode.ApplyMask` | external/qrcodegen/QrCode.cpp:596-617 | exactly the unmarked cells that the mask selects are inverted; masks outside 0..7 are refused |
| `Masking.MaskedTwice` | external/qrcodegen/QrCode.cpp:596-617 | masking twice restores the grid |
| `Masking.Chequered` | external/qrcodegen/QrCode.cpp:604 | mask 0 is a chequered field with the corner inverted |
| `Masking.RowStripes` | external/qrcodegen/QrCode.cpp:605 | mask 1 is every other row from the first |
| `Masking.ColumnStripes` | external/qrcodegen/QrCode.cpp:606 | mask 2 is every third column from the first |
| `Masking.Diagonals` | external/qrcodegen/QrCode.cpp:607 | mask 3 is every third diagonal from the corner |
| `Masking.Tiles` | external/qrcodegen/QrCode.cpp:608 | mask 4 is chequered in tiles three wide and two high |
| `Masking.ProductMasks` | external/qrcodegen/QrCode.cpp:609-611 | masks 5 to 7 go by the product of the coordinates modulo 6, and modulo 3 with the parity of their sum |
| `Symbols.Unmask` | external/qrcodegen/QrCode.cpp:339-356 | masking a finished symbol again leaves the unmasked symbol with that format |
| `Symbols.RedrawnFormat` | external/qrcodegen/QrCode.cpp:339-356 | redrawing the format bits of a masked grid finishes the symbol, whatever format was there |
| `QrCodes.QrCode.ChooseMask` | external/qrcodegen/QrCode.cpp:339-353 | the lowest of the masks whose finished symbols score least |
| `QrCodes.QrCode.Create` | external/qrcodegen/QrCode.cpp:320-360 | fails exactly on arguments out of range; otherwise the grid is the one described cell by cell, the same for a mask chosen automatically as for that mask given, and an automatic mask is the lowest with the least penalty |
| `Penalty.ScoreLine` | external/qrcodegen/QrCode.cpp:622-665 | the one-pass score of a row or column is the sum over the runs of the line with size white cells added at both ends; the history bound is never exceeded |
| `Penalty.RunsOfExpand` | external/qrcodegen/QrCode.cpp:806-811 | an alternating list of positive lengths is the run-length encoding of the line it spells |
| `Penalty.RunsReassemble` | external/qrcodegen/QrCode.cpp:622-665 | the runs of a line alternate and spell the line |
| `PenaltyMeaning.PatternCountIs` | external/qrcodegen/QrCode.cpp:785-803 | the patterns counted along the runs are the places where the line literally reads n dark, n light, 3n dark, n light, n dark, with at least 4n light on one side and n on the other |
| `PenaltyMeaning.RunCostsAre` | external/qrcodegen/QrCode.cpp:622-665 | long runs cost 3 for their first five cells and 1 for every further one |
| `PenaltyMeaning.LineScoreMeans` | external/qrcodegen/QrCode.cpp:622-665 | the score of a line in terms of its cells, with all weights as numbers |
| `Penalty.CountBlocks` | external/qrcodegen/QrCode.cpp:667-677 | the uniform 2x2 blocks |
| `Penalty.CountBlacks` | external/qrcodegen/QrCode.cpp:679-685 | the black modules |
| `Penalty.BalanceIsLeast` | external/qrcodegen/QrCode.cpp:686-690 | the balance term is the least k for which the black share lies within the k-th band, for every odd size |
| `Penalty.ScoreGrid` | external/qrcodegen/QrCode.cpp:620-692 | the penalty is the declarative sum of line scores, blocks and balance |
| `Penalty.ScoreBound` | external/qrcodegen/QrCode.cpp:620-692 | the penalty stays below 2^31 - 1, so some mask always beats the initial minimum |
| `PenaltyMeaning.WhiteGridScore` | external/qrcodegen/QrCode.cpp:620-692 | a white grid of size n >= 5 scores 2n(n - 2) + 3(n - 1)^2 + 90 |
| `Encoder.FindVersion` | external/qrcodegen/QrCode.cpp:260-279 | the smallest fitting version, or an error exactly when none fits; the used bits are the exact length |
| `Encoder.BoostLevel` | external/qrcodegen/QrCode.cpp:281-285 | the highest level that fits the version, never below the request; the request itself without boosting |
| `Encoder.ConcatenateSegments` | external/qrcodegen/QrCode.cpp:287-295 | the stream of all segments, of the length computed before |
| `Encoder.PadToCapacity` | external/qrcodegen/QrCode.cpp:297-308 | terminator, alignment and pad bytes end exactly at capacity |
| `Encoder.PaddingStops` | external/qrcodegen/QrCode.cpp:297-308 | the padding keeps the stream in front and makes a reader stop right after it |
| `Encoder.PaddingIs` | external/qrcodegen/QrCode.cpp:297-308 | four zero bits and as many more as complete the byte, or fewer where the room ends, then pad bytes |
| `Encoder.PadPattern` | external/qrcodegen/QrCode.cpp:305-308 | the pad bytes are 11101100 and 00010001 in turn |
| `Encoder.BuildDataCodewords` | external/qrcodegen/QrCode.cpp:287-313 | the data codewords spell the padded stream and fill the capacity |
| `Encoder.EncodeSegments` | external/qrcodegen/QrCode.cpp:255-317 | an error exactly on bad arguments or when no version fits; otherwise smallest version, final level, best or given mask and the symbol of the padded stream; no internal assertion can fire |
| `Encoder.EncodedSegmentsAreRead` | external/qrcodegen/QrCode.cpp:255-360 | end to end: a reader that looks only at the grid gets back exactly the encoded list, in order |
| `Decoder.FormatRoundTrip` | external/qrcodegen/QrCode.cpp:445-470 | level and mask can be read off every finished symbol |
| `Decoder.VersionRoundTrip` | external/qrcodegen/QrCode.cpp:320-331 | the version can be read off the size of the grid |
| `Decoder.BitsRoundTrip` | external/qrcodegen/QrCode.cpp:568-617 | unmasking and reading the scan gives back all codeword bits |
| `Decoder.DataRoundTrip` | external/qrcodegen/QrCode.cpp:320-360 | the data codewords can be read off every finished symbol |
| `Texts.IsNumeric` | external/qrcodegen/QrCode.cpp:203-210 | all characters are digits |
| `Texts.IsAlphanumeric` | external/qrcodegen/QrCode.cpp:194-200 | all characters are in the set |
| `Texts.MakeSegments` | external/qrcodegen/QrCode.cpp:123-138 | no segment for the empty text, otherwise one, with as few data bits as any that spells the text; too long a byte text is refused |
| `Texts.PayloadIsTightest` | external/qrcodegen/QrCode.cpp:123-138 | no other encodable payload that spells the text takes fewer data bits |
| `Texts.PayloadsSpellText` | external/qrcodegen/QrCode.cpp:123-138 | the segments made for a text spell it |
| `Texts.EncodeText` | external/qrcodegen/QrCode.cpp:243-246 | a text too long for its segment is refused with a length error; any other is encoded, boosted and best masked, unless no version holds it, and the grid then reads back as the text |
| `Texts.EncodeBinary` | external/qrcodegen/QrCode.cpp:249-252 | a byte string is encoded, boosted and best masked, unless no version holds it, and the grid then reads back as those bytes |
| `RelayState.TxPoolMeta.SetRelayMethod` | src/blockchain_db/blockchain_db.cpp:78-107 | all five flags are overwritten with the method's encoding |
| `RelayState.TxPoolMeta.GetRelayMethod` | src/blockchain_db/blockchain_db.cpp:109-135 | the decoded method, the flags unchanged |
| `RelayState.TxPoolMeta.UpgradeRelayMethod` | src/blockchain_db/blockchain_db.cpp:137-151 | true and re-encoded exactly when the request is above the current method; otherwise nothing changes |
| `RelayState.DecodeEncode` | src/blockchain_db/blockchain_db.cpp:78-135 | an encoded method decodes to itself and sets at most one flag |
| `RelayState.FlagsMean` | src/blockchain_db/blockchain_db.cpp:109-135 | from flags of 0 or 1, exactly one set names its own method and anything else means fluff |
| `RelayState.Order` | src/blockchain_db/blockchain_db.cpp:137-151 | the order of the methods, from not relayed to mined |
| `RelayState.RunIsMaximum` | src/blockchain_db/blockchain_db.cpp:137-151 | over any requests from any flag bytes the method is the maximum of the first and all requested |
| `RelayState.RaisesAreFew` | src/blockchain_db/blockchain_db.cpp:137-151 | at most five requests of a run return true |
| `RelayState.RaisedFlagsAreCanonical` | src/blockchain_db/blockchain_db.cpp:137-151 | after a raise at most one flag is set; without one the flags never change |
| `RelayState.CategoriesAreKept` | src/blockchain_db/blockchain_db.cpp:47-76 | relayable and broadcasted, once gained, are never lost |
| `RelayState.CategoriesAre` | src/blockchain_db/blockchain_db.cpp:47-76 | broadcast is what is at least fluffed, relayable what is above not relayed, legacy what is broadcast or not relayable |
| `RelayState.LegacyIsLostIff` | src/blockchain_db/blockchain_db.cpp:47-76 | the legacy category, in contrast, is lost exactly when an unrelayed transaction is raised but never as far as fluff |
| `RelayState.LegacyCanBeLost` | src/blockchain_db/blockchain_db.cpp:47-76 | one request for local relay is enough to lose it |
| `BatchGuards.Database.BatchStart` | src/blockchain_db/lmdb/db_lmdb.cpp:3837-3878 | opens a batch only if none is open |
| `BatchGuards.Database.BatchStop` | src/blockchain_db/lmdb/db_lmdb.cpp:3917-3944 | keeps the batch's writes, or throws: before ending it, or after discarding it |
| `BatchGuards.Database.BatchAbort` | src/blockchain_db/lmdb/db_lmdb.cpp:3946-3967 | discards the batch, or throws before doing so |
| `BatchGuards.LockedTxn.constructor` | src/blockchain_db/locked_txn.h:43-46 | the guard owns a batch exactly if it opened one |
| `BatchGuards.LockedTxn.Commit` | src/blockchain_db/locked_txn.h:47 | ends an owned batch and lets go of it unless the database throws, which is swallowed |
| `BatchGuards.LockedTxn.Abort` | src/blockchain_db/locked_txn.h:48 | discards an owned batch and lets go of it unless the database throws, which is swallowed |
| `BatchGuards.LockedTxn.Destroy` | src/blockchain_db/locked_txn.h:49 | a guard that still holds its batch aborts it |
| `BatchGuards.RunsKeepInvariant` | src/blockchain_db/locked_txn.h:37-54 | over any nested run, what is committed is the initial contents plus the writes of the batches kept, each batch ends at most once, and an open batch started from what is committed |
| `BatchGuards.UncommittedBatchLeavesNoTrace` | src/blockchain_db/locked_txn.h:37-54 | a batch that ends without a successful commit leaves what was committed when it was opened |
| `BatchGuards.InnerCallsDoNothing` | src/blockchain_db/locked_txn.h:43-49 | calls on a guard that found a batch open change nothing |
| `BatchGuards.OnlyOpenersEndBatchesIff` | src/blockchain_db/locked_txn.h:37-54 | only openers end batches if and only if no unrefused call is made on a guard that lost its batch to a failed commit while another batch is open |
| `BatchGuards.OpenersEndBatches` | src/blockchain_db/locked_txn.h:37-54 | as long as no commit fails after the fact, only openers end batches |
| `BatchGuards.FailedCommitCanEndInnerBatch` | src/blockchain_db/lmdb/db_lmdb.cpp:3917-3944 | a run in which an outer guard whose commit failed later commits an inner guard's batch |
| `ChainTables.FindOutKey` | src/blockchain_db/lmdb/db_lmdb.cpp:1171-1178 | finds an output by its index within the amount, or none has it |
| `ChainTables.FindOutTx` | src/blockchain_db/lmdb/db_lmdb.cpp:1180-1190 | finds an output by its global number, or none has it |
| `ChainStore.BlockchainStore.SpendInputs` | src/blockchain_db/blockchain_db.cpp:205-221 | key images are marked spent in order; the first spent one or unsupported input fails the whole; reports a generation input |
| `ChainStore.BlockchainStore.StoreOutputs` | src/blockchain_db/blockchain_db.cpp:225-246 | outputs are stored in order, those of a generating version 2 transaction under amount 0 with a commitment to their amount |
| `ChainStore.BlockchainStore.AddTransaction` | src/blockchain_db/blockchain_db.cpp:182-248 | inputs, data, outputs and index list, in this order, with the error of the first that fails |
| `ChainStore.BlockchainStore.AddBlock` | src/blockchain_db/blockchain_db.cpp:250-307 | the miner transaction, the others in order, then the block's own record with the count of amount-0 outputs; returns the former height |
| `ChainStore.CountZeroOutputs` | src/blockchain_db/blockchain_db.cpp:286-290 | counts the outputs of amount 0 |
| `ChainStore.BlockchainStore.RemoveTransaction` | src/blockchain_db/blockchain_db.cpp:336-350 | key images, data and outputs are taken away, or the error of the first step that fails |
| `ChainStore.BlockchainStore.PopBlock` | src/blockchain_db/blockchain_db.cpp:314-329 | the top block's record, its transactions last first, then the miner transaction; returns the block and the transactions in that order |
| `ChainStore.BlockchainStore.Fixup` | src/blockchain_db/blockchain_db.cpp:442-478 | nothing if read only; fails on an empty store; pops a mainnet store that lacks the key image back to height 202612 |
| `ChainUndo.OutputUndone` | src/blockchain_db/lmdb/db_lmdb.cpp:1163-1199 | removing the output just added restores the output tables |
| `ChainUndo.TxLedgerAdded` | src/blockchain_db/lmdb/db_lmdb.cpp:890-970 | the transaction added reads back unchanged, has the greatest number, and its key images, all new, are spent |
| `ChainUndo.TxLedgerUndone` | src/blockchain_db/blockchain_db.cpp:336-350 | removing the transaction just added restores its tables and the spent keys, even when some key images had gone missing |
| `ChainUndo.TransactionUndoneIff` | src/blockchain_db/blockchain_db.cpp:182-248 | removing the transaction just added restores every table if and only if both sides put its outputs under the same amounts |
| `ChainUndo.AgreesMeans` | src/blockchain_db/lmdb/db_lmdb.cpp:1155-1160 | outputs are looked for under 0 only for a lone generation input of version 2; the two sides disagree exactly for a generation input among several and an amount that is not zero |
| `ChainBlocks.PopUndoesAdd` | src/blockchain_db/blockchain_db.cpp:314-329 | popping the block just added restores every table and returns the block and its transactions reversed, when its transactions agree |
| `ChainBlocks.PopUndoesAddDespite` | src/blockchain_db/blockchain_db.cpp:314-329 | the same when key images have gone missing in between |
| `ChainBlocks.RemovalIsLatest` | src/blockchain_db/blockchain_db.cpp:320-328 | in any block, the transaction to be removed next is the one added last, and removing it takes the ledger back exactly one step |
| `ChainPops.RunRemovesLatest` | src/blockchain_db/blockchain_db.cpp:314-329 | after any run at all, every removal a pop makes takes the transaction added last |
| `ChainBlocks.PopRestoresLedger` | src/blockchain_db/blockchain_db.cpp:314-329 | whatever the outputs, a pop that gets through (`ChainRemovals.PopBlockIff` says when) restores blocks, transactions and spent keys |
| `ChainBlocks.PopCounted` | src/blockchain_db/blockchain_db.cpp:314-350 | by how much a pop that gets through misses the number of amount-0 outputs |
| `ChainBlocks.PopUndoesAddIff` | src/blockchain_db/blockchain_db.cpp:250-329 | any accepted block is undone exactly if and only if all its transactions agree |
| `ChainCases.PopCanFail` | src/blockchain_db/lmdb/db_lmdb.cpp:1155-1160 | a block with a version 2 miner transaction of two generation inputs that can be added and then cannot be popped |
| `ChainCases.PopCanTakeEarlierOutput` | src/blockchain_db/lmdb/db_lmdb.cpp:1155-1199 | after an ordinary block and such a block, a pop succeeds, restores the ledger, takes the ordinary block's output away and leaves the other's |
| `ChainRemovals.RemoveOutputIff` | src/blockchain_db/lmdb/db_lmdb.cpp:1163-1199 | an output can be removed if and only if one is held under the amount and index looked for; only that place goes |
| `ChainRemovals.PopBlockIff` | src/blockchain_db/blockchain_db.cpp:314-350 | a block can be popped if and only if the places its outputs are looked for are distinct and held; the pop takes exactly those places |
| `ChainPops.RunStaysLinked` | src/blockchain_db/lmdb/db_lmdb.cpp:1050-1199 | after any run at all, amount indices rise within each list, every output has a global number of its own, and the amount indices of every transaction on the chain are filed |
| `ChainPops.RunPopIff` | src/blockchain_db/blockchain_db.cpp:314-350 | after any run at all, a pop succeeds if and only if there is a block and the places of its outputs are distinct and held; it takes exactly those |
| `ChainAdmission.TransactionAdmittedIff` | src/blockchain_db/blockchain_db.cpp:182-248 | on a well-kept store a transaction is accepted if and only if its inputs are supported, it is of version 1 or 2 with a commitment for each output of a ring signature, its images and hash are new, and its outputs are keyed and committed |
| `ChainAdmission.BlockAdmittedIff` | src/blockchain_db/blockchain_db.cpp:250-307 | on a well-kept store a block is accepted if and only if its transactions fit, no image or hash is used twice, its own hash is new and its parent is on top; the store stays well kept |
| `ChainAdmission.TransactionRefused` | src/blockchain_db/blockchain_db.cpp:182-248 | why a transaction is refused, read off the error |
| `ChainAdmission.BlockRefused` | src/blockchain_db/lmdb/db_lmdb.cpp:775-802 | why a block is refused whose transactions are taken, read off the error |
| `ChainRuns.RunLedger` | src/blockchain_db/blockchain_db.cpp:250-329 | after any run of additions and pops, blocks, transactions and spent keys are those of adding the chain's blocks and nothing else |
| `ChainRuns.SpentKeysAreChainImages` | src/blockchain_db/blockchain_db.cpp:205-221 | after any such run, the spent keys are exactly the key images of the inputs on the chain |
| `ChainRuns.PopFromChain` | src/blockchain_db/blockchain_db.cpp:314-329 | a pop that gets through takes off the chain's last block and returns it |
| `ChainRuns.RunIsReplay` | src/blockchain_db/blockchain_db.cpp:250-350 | after any run of agreeing blocks, every table is that of adding the chain's blocks and nothing else |
| `ChainRuns.PopSucceedsIff` | src/blockchain_db/blockchain_db.cpp:314-329 | in such a run a pop succeeds exactly when the chain is not empty |
| `ChainRuns.AddSucceedsIff` | src/blockchain_db/blockchain_db.cpp:250-307 | in such a run a block is accepted exactly when it is admissible |
| `ChainReads.ChainIsOnRecord` | src/blockchain_db/lmdb/db_lmdb.cpp:775-851 | every block of the chain is found by height and by hash, each of its transactions by hash with its data and height, and each output by index under its own amount, or under 0 for a generating version 2 transaction, with key, unlock time, height and its own commitment or one to its amount, its global number leading back to it |
| `ChainReads.RunIsOnRecord` | src/blockchain_db/blockchain_db.cpp:182-307 | the same after any run of agreeing blocks |
| `ChainRct.RecordIsOffBy` | src/blockchain_db/blockchain_db.cpp:275-298 | for any block, the difference between the recorded number and the outputs stored under amount 0 |
| `ChainRct.RecordIsExact` | src/blockchain_db/blockchain_db.cpp:229-298 | when only the miner transaction generates, the recorded number is the number of outputs stored under amount 0 |
| `ChainRct.RecordIsExactIff` | src/blockchain_db/blockchain_db.cpp:229-298 | for any accepted block, the recorded number is exact if and only if the outputs over-recorded for a miner transaction that does not generate are as many as those unrecorded for others that do |
| `ChainRuns.CumulativeCountIsExact` | src/blockchain_db/lmdb/db_lmdb.cpp:826-835 | the running count of the top block is the number of outputs stored under amount 0, when only miner transactions generate and the count is not restarted |
| `ChainFixup.PopToIff` | src/blockchain_db/blockchain_db.cpp:473-474 | popping back to a height gets through if and only if the places of all outputs to be popped are distinct and held, and leaves the ledger of the chain's first blocks |
| `ChainFixup.PopShortens` | src/blockchain_db/blockchain_db.cpp:473-474 | a pop that gets through takes off one block, so the loop ends |
| `ChainFixup.FixupRepairsLedger` | src/blockchain_db/blockchain_db.cpp:442-478 | a store lacking key images only from block 202612 on gets through if and only if the places of the outputs to be popped are distinct and held, and then has the ledger of the chain's first 202612 blocks |
| `ChainFixup.FixupRepairs` | src/blockchain_db/blockchain_db.cpp:442-478 | for agreeing blocks it gets through, and every table is that of the first 202612 blocks |
| `ChainFixup.FixupLeavesAlone` | src/blockchain_db/blockchain_db.cpp:442-478 | every other store is left as it is |

## Left out

- ChainStore.BlockchainStore.AddTransaction: does not say what the tables hold after an error; every caller discards the surrounding database transaction then. The same holds for SpendInputs, StoreOutputs, AddBlock, RemoveTransaction, PopBlock and Fixup.
- ChainStore.BlockchainStore.StoreOutputs: for a ring signature of the null type or a version 2 transaction without inputs, a list of commitments shorter than the outputs is undefined behaviour in the original; the model takes the missing ones as absent.
- Segments.MakeNumeric: the character count is unbounded, where the original overflows an `int` beyond INT_MAX characters. The same holds for Segments.MakeAlphanumeric.
- QrCodes.QrCode.ChooseMask: the initial minimum penalty is taken as 2^31 - 1, the least value the type `long` may have as its maximum.
- Penalty.ScoreLine: one method stands for the row loop and the column loop, which differ only in the line they read; nested loops elsewhere in the encoder are separate methods too.
- `Mode::KANJI` has no factory in the original and appears only in the mode table; `toSvgString`, getters and message texts are output formatting.
- Hashes, prunable hashes and zero commitments are functions given from outside; nothing about them is needed, not even that they are injective. Of serialization, the model has the refusal of unknown versions and of a wrong number of commitments; the other parts of a ring signature, and blobs that do not belong to their transaction or block, are not modelled.
- Pruning and its tip table, the hard-fork object, timing counters, cumulative size statistics, logging and `m_cum_size` are not modelled; a store opened with pruned transactions reads them back without their prunable part.
- The write transaction around each LMDB operation appears only as the rollback of failed operations in `ChainRuns.Step`; concurrent readers are not modelled.
- Cursor positions are not modelled: the block deleted by the backend's block removal is the one under the cursor that reading the top block has left there.
- Errors of the database engine other than those listed in `ChainTables.DbError`, and 64-bit wrap-around of counters in the store, are not modelled.
- The dashboard, the desktop application, the build files and the rest of the daemon and wallet are not part of this model.
