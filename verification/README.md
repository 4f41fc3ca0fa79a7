# saprfclib in Dafny

A model of the parts of saprfclib, a pure-Python SAP RFC client and server, that hold real logic, and proofs
of what that logic is for. `dafny verify dfyconfig.toml` checks everything.

## Layout

| part | files |
|---|---|
| bits, bytes, integers | `Bits`, `Words`, `Shifts`, `BitReader` |
| SAPCOMPRESS, LZC | `LzwSpec` (LZW over strings, code groups), `LzcReader`, `LzcLayout`, `LzcWriter` |
| SAPCOMPRESS, LZH | `Huffman`, `HuffTree` (section 3.2.2 of RFC 1951), `Lz77` (expansion and ring window), `Lzh`, `LzhBlock`, `LzhTrees`, `LzhStream`, `LzhNearEnd` (a refused file in bytes) |
| public entry point, LZ4 | `Sapcompress`, `Lz4` |
| TLV, frames, session, calls | `Tlv`, `Replies` (the errors a reply carries), `Frames`, `Session`, `Calls` |
| connection pool | `Pool` |
| codec | `Dpd`, `Decfloat`, `Bcd`, `Leaves`, `Layout` |
| requests and responses | `Pairs`, `CompressedTables`, `Messages`, `ReturnedTables` (tables under their ids), `Results` (what a caller gets, end to end) |
| transactional and background RFC | `Trfc`, `Bgrfc`, `UnitRuns` (whole histories of units) |

Each part has a specification written as functions on values (an LZW dictionary of strings, an LZ77 expansion,
the list of records in a stream, the digits of a number, a step relation), the source's loops and objects as
methods and classes proved to compute exactly that specification, and lemmas about the specification that state
what the source promises.

## Main results

- **LZC.** For every byte string below 4 GiB, every limit 9 to 16 and both block modes, decompressing the
  compressor's output returns the input (`LzcWriter.SapcompressCompressLzc`, `Sapcompress.RoundTrip`). The reader
  refines string-dictionary LZW on every input, valid or not (`LzcReader.LzcDecompress.Decompress`).
- **Huffman.** The assigned words are prefix-free if and only if the lengths satisfy Kraft's inequality; any symbol
  sequence is read back; the two-staged read agrees with the plain one, and near the end of the data it reads
  exactly the words the plain one cannot.
- **LZH.** The chunked copy through the 16 KiB ring is the byte-at-a-time LZ77 copy. A stream of any static and
  dynamic blocks decompresses to the expansion of all its tokens exactly when its last tree headers and items have
  enough bits behind them to be looked at, and is refused otherwise; static blocks always have. Every token list has
  such a stream.
- **LZ4.** Decoding the serialisation of any valid sequence list gives its LZ77 meaning.
- **TLV and calls.** The classifier's answer for a stream cut at any byte is characterised exactly. Over every run,
  however replies are cut into frames, a call that reports a result reports its own reply; any other failure
  breaks the session, and every later call is refused. A call answered with the response to a handler's result
  returns that result in normal form, and exactly when it returns is known (`Results.CallReturnsResult`).
- **Pool.** For every interleaving of callers in the lock gaps: no lost wake-up, slots conserved, one holder for each
  connection, every connection closed exactly once after `close()`.
- **Codec.** Exact inverse pairs for DECFLOAT, packed decimals and nested structures, with the exact condition where
  an inverse fails.
- **Messages, tRFC, bgRFC.** What one side builds the other reads in normal form. A submit that returns normally on a
  reply of the server, its own or a late one, has run its handler exactly once. Over every history of shipments and
  confirmations a unit is acknowledged at most once, runs nothing once it is done, and is known to have run in full
  exactly when no confirmation came first.

## Where the code and its documentation differ

The model follows the code. Each difference is a lemma.

- BROKEN is documented as terminal; `start`, `begin_ws_session` and the two `complete_ws_...` operations set the state
  without looking at it. It is terminal exactly in the runs without them (`Sessions.BrokenIsTerminalIff`,
  `Sessions.BrokenEscapes`).
- RFC_EXECUTED is documented as no error for the client. The client raises it as a failure, so a retry after a lost
  reply is refused although the call has run (`Trfc.LostReplyIsRefused`). When a submit does return normally is
  `Trfc.ReturnsNormallyIff`.
- Exactly-once delivery is documented to be signalled by the absence of an exception. The error check asks for no
  return code, so a bare gateway header, or a reply cut inside its first record header, ends a submit normally
  though nothing ran (`Trfc.EmptyFrameReturns`, `Trfc.CutFailureReturns`). Which bytes pass is `Replies.PassesIff`;
  how a server's reply reads under every cut is `Trfc.ReplyRead`.
- `tlv_stream_status` is documented to call a stream that ends between records "not TLV"; the code calls it
  truncated once a record was read (`Tlv.PrefixStatus`).
- A reply cut inside the terminator's repeated tag is reported, but a frame stays unread and the next call fails
  (`Calls.CutTwoBytesEarly`). It never reports the leftover. When this happens is `Calls.InStepIff`.
- Packed decimals are documented as exact. `scaleb` rounds to 28 significant digits (`Bcd.LongValueRounded`), so the
  round trip is exact exactly up to there (`Bcd.RoundTripIff`, `Bcd.EncodeDecoded`).
- The redundant declets of section 3.5.2 of IEEE 754-2008 have values; the decode table lacks them
  (`Decfloat.RedundantRefused`). What is decoded is `Decfloat.DecodesIff` and `Dpd.DecletOfDigits`.
- A partial row is documented to encode with initial values. The initial value of a DECFLOAT is text, so this holds
  exactly for rows that leave no DECFLOAT unset, at any depth (`Layouts.UnsetIff`, `Layouts.EncodesIff`).
- Valid LZH files are refused when their last dynamic codes stand too close to the end of the data
  (`LzhNearEnd.RefusedFile`). When, is `LzhTrees.TreesIff`, `LzhBlock.BlockIff` and, for whole files,
  `LzhStream.FileIff`.
- A compressed table's wrapper is documented as optional. A stream without one is refused when it happens to show the
  magic again eight bytes further on (`CompressedTables.BareRefused`); when its rows do come back is
  `CompressedTables.RowsBack`.
- `BGRFC_DEST_CONFIRM` confirms a unit that was never shipped, which then is never run (`UnitRuns.ConfirmedUnseen`);
  RFC_EXECUTED means a full run exactly without that (`UnitRuns.ExecutedRanIff`). Re-shipping a unit that failed
  repeats the handlers before the failure (`UnitRuns.OneFailureRunsTwice`, `Bgrfc.ReshipRepeats`).

## How the surroundings are modelled

- Sockets are queues of frames; `arrived` says how many frames come before the deadline. Time is a flag at each turn.
  In the retry loop the frames an attempt finds are arbitrary: nothing, its own reply, a late one, or a gateway's.
- `threading.Condition` is a Mesa monitor: `notify` moves one waiting caller, any one, to woken; a woken or timed-out
  caller competes for the lock like any other. A step is the code between two lock gaps.
- The TID and unit stores are the in-memory ones (`src/saprfclib/stores.py:271-425`). Both servers dispatch one delivery at
  a time, so a delivery is one step.
- Application handlers are parameters: which function has one, and whether a run succeeds.
- Text is UTF-16 code units outside the surrogates. Errors carry a reason; only whether there is an error is meant.

## Model

| member | source | states |
|---|---|---|
| `BitReader.Reader.constructor` | src/saprfclib/compress.py:162-166 | A fresh reader shows all bits of its data, least significant bit of each byte first |
| `BitReader.Reader.Read` | src/saprfclib/compress.py:188-195 | Byte-aligned reads return the next bytes, and fail exactly when bits are pending or too few bytes are left |
| `BitReader.Reader.PeekBits` | src/saprfclib/compress.py:197-202 | Looking ahead returns the next `n` bits as a number, fails exactly when fewer are left, and leaves the unread bits as they were, however many bytes it pulls into its buffer |
| `BitReader.Reader.ReadBits` | src/saprfclib/compress.py:204-208 | Reading consumes exactly the next `n` bits of the stream and returns them |
| `BitReader.Reader.BitsLeft` | src/saprfclib/compress.py:172-174 | The count of bits left is the length of the unread bit string, buffered bits included |
| `BitReader.PullByte` | src/saprfclib/compress.py:198-201 | Or-ing a byte in above the buffered bits changes no unread bit |
| `BitReader.TakeBits` | src/saprfclib/compress.py:202-207 | Masking and shifting the buffer splits the unread bits at `n` |
| `LzwSpec.HeaderBack` | src/saprfclib/compress.py:236-247 | A header, algorithm, version and config included, is read back from in front of any bytes |
| `LzwSpec.TakeTurn` | src/saprfclib/compress.py:326-382 | Every code that is not the end consumes at least one bit, so reading terminates |
| `LzcReader.ChainIndexIsDepth` | src/saprfclib/compress.py:348-349 | The chain index kept for a code, 0 for a literal, is one less than the length of its string |
| `LzcReader.TracksStep` | src/saprfclib/compress.py:373-383 | Entering the previous string, one byte longer, under the free code keeps the chain table spelling the string dictionary, and the buffer starting with the last string |
| `LzcReader.TracksReset` | src/saprfclib/compress.py:328-332 | After a block reset no stale chain entry is taken for a current one |
| `LzcReader.LzcDecompress.constructor` | src/saprfclib/compress.py:258-268 | A fresh decompressor stands at the start of its data with the minimum code width |
| `LzcReader.LzcDecompress.StartChunk` | src/saprfclib/compress.py:292-294 | Starting a group drops what is left of the current one and takes `code_len` bytes, or all there are |
| `LzcReader.LzcDecompress.Refill` | src/saprfclib/compress.py:301-310 | A spent group, or a free code above the width's maximum, moves to the next group; widening abandons the rest of the group |
| `LzcReader.LzcDecompress.ReadCode` | src/saprfclib/compress.py:301-313 | The next code and the new position are those of the group layout, the end of data included |
| `LzcReader.LzcDecompress.ReadHeader` | src/saprfclib/compress.py:280-290 | The header is refused exactly for its size, magic, algorithm or limit; otherwise length, block mode and limit are taken from it |
| `LzcReader.LzcDecompress.Resolve` | src/saprfclib/compress.py:350-362 | Walking the chain of a known code fills the buffer with exactly the code's string |
| `LzcReader.LzcDecompress.Spell` | src/saprfclib/compress.py:345-370 | After a repeated code (buffer reused), a known code or the next free code (KwKwKw) the buffer holds the code's dictionary string; it refuses exactly the codes that have none |
| `LzcReader.LzcDecompress.ReadText` | src/saprfclib/compress.py:326-370 | One turn of the loop does what the string dictionary says: end, reset or a string |
| `LzcReader.LzcDecompress.TakeText` | src/saprfclib/compress.py:371-384 | The string is written and the new entry made, the dictionary and the chain table staying in step |
| `LzcReader.LzcDecompress.ReadAll` | src/saprfclib/compress.py:324-386 | Over every code sequence the bytes written, or the error raised, are those of string-dictionary LZW |
| `LzcReader.LzcDecompress.Decompress` | src/saprfclib/compress.py:315-386 | The reader refines the string-dictionary meaning of the stream on all inputs, errors and compatibility mode included |
| `LzcLayout.NextFits` | src/saprfclib/compress.py:276-278 | The free code always fits the width in force, also at limit 9, whose stream widens to 10 bits |
| `LzcLayout.NextGroup` | src/saprfclib/compress.py:301-310 | A reader that has used up a group, full or cut short by a widening, lands exactly on the next group the writer made |
| `LzcLayout.DecodeLaid` | src/saprfclib/compress.py:315-386 | Codes laid out in groups by the width schedule are decoded to their expansion from any point of the stream |
| `LzcWriter.LzcCompress.PackGroup` | src/saprfclib/compress.py:446-459 | A group is exactly `code_len` bytes: its codes LSB-first, then zero bits |
| `LzcWriter.LzcCompress.FlushGroup` | src/saprfclib/compress.py:437-460 | Flushing appends one group of the width in force and keeps the output the concatenation of well laid groups |
| `LzcWriter.LzcCompress.Emit` | src/saprfclib/compress.py:462-465 | An emitted code joins the pending group, which is flushed at eight |
| `LzcWriter.LzcCompress.AccountFor` | src/saprfclib/compress.py:487-504 | After each code writer and reader agree on table, free code, width and position of the next group |
| `LzcWriter.LzcCompress.Compress` | src/saprfclib/compress.py:467-517 | The codes emitted expand, in the string dictionary, to the input, and the output is exactly their groups |
| `LzcWriter.PhraseGrows` | src/saprfclib/compress.py:507-512 | When the table knows the phrase extended by a byte, the extended phrase is the string of the code it gives |
| `LzcWriter.Accounted` | src/saprfclib/compress.py:487-504 | The reader accepts the code of a finished phrase, writes the phrase, and makes the entry the writer's table makes |
| `LzcWriter.DecodeStream` | src/saprfclib/compress.py:315-386 | The groups of a compressed stream decode from the start to the input, in both modes of the reader |
| `LzcWriter.SapcompressCompressLzc` | src/saprfclib/compress.py:520-536 | For every byte string, limit and block mode: an error exactly when the limit is outside 9..16 or the length does not fit 32 bits; otherwise decompressing the output gives the input back |
| `Sapcompress.RoundTrip` | src/saprfclib/compress.py:520-536 | `sapcompress_decompress` of the compressor's output, asked for the input's length, returns the input |
| `Sapcompress.SapcompressDecompress` | src/saprfclib/compress.py:857-892 | Both algorithms: the result is the block's meaning, and its length is the declared and the expected one |
| `Sapcompress.LzhFileIff` | src/saprfclib/compress.py:857-892 | An LZH block made of any valid deflate blocks decompresses to the LZ77 expansion of all their tokens for the expected length alone, and exactly when its last headers and items can be looked at |
| `Sapcompress.LzhFileBack` | src/saprfclib/compress.py:857-892 | With spare bits behind it, such a block decompresses for the expected length and no other |
| `HuffTrees.ReverseInt` | src/saprfclib/compress.py:544-550 | The stored code is the code word with its first bit lowest |
| `HuffTrees.HuffTree.StartingCodes` | src/saprfclib/compress.py:616-629 | The first code of every length is that of section 3.2.2 of RFC 1951 |
| `HuffTrees.HuffTree.AssignCodes` | src/saprfclib/compress.py:614-635 | Every used symbol gets its canonical code word, every unused one -1 |
| `HuffTrees.HuffTree.BuildLookup` | src/saprfclib/compress.py:566-580 | Every table index holds the symbol whose word starts the index's bits (the last one if words clash), for any lengths whatever |
| `HuffTrees.HuffTree.ReadCode` | src/saprfclib/compress.py:582-592 | A read consumes exactly the word of the symbol found, and fails when fewer than the longest word's bits are left or no word matches |
| `HuffTrees.HuffTree.ReadCodeTwoStaged` | src/saprfclib/compress.py:594-611 | The two-staged read returns and consumes what its specification on bits says, short look first |
| `Huffman.PrefixFreeIffKraft` | src/saprfclib/compress.py:614-635 | The assigned words are prefix-free exactly when the lengths satisfy Kraft's inequality |
| `Huffman.LoadIsKraftSum` | src/saprfclib/compress.py:622-629 | The code values of length `l` end exactly at Kraft's sum in units of one word of length `l` |
| `Huffman.Clash` | src/saprfclib/compress.py:614-635 | Overfull lengths always give two symbols whose words clash |
| `Huffman.MatchUnique` | src/saprfclib/compress.py:566-580 | With a valid code the table's symbol for an index is the one symbol whose word starts it |
| `Huffman.ReadWord` | src/saprfclib/compress.py:582-592 | Reading the bits of a word, with enough bits behind to look at, gives the symbol and what follows |
| `Huffman.ReadEncoded` | src/saprfclib/compress.py:582-592 | Reading the bits of any symbol sequence, with spare bits to look at, returns that sequence and the spare bits |
| `HuffTrees.TwoStagedAgrees` | src/saprfclib/compress.py:594-611 | With a valid code and enough bits, the two-staged read is the plain read |
| `HuffTrees.TwoStagedNearEnd` | src/saprfclib/compress.py:594-611 | With too few bits for the plain read, the two-staged read still reads a word of exactly the first length, and nothing else |
| `Lz77.CopyRepeats` | src/saprfclib/compress.py:832-845 | A copy is self-overlapping repetition: every byte equals the one `distance` places before it, zero before the start |
| `Lz77.RingPut` | src/saprfclib/compress.py:812-816 | Writing the next slot keeps the window holding the last 16384 bytes of output, zeros before its start |
| `Lz77.RingGet` | src/saprfclib/compress.py:832-833 | The slot `distance` behind the write position holds the byte `distance` back, for every distance up to the window size |
| `Lzh.LzhDecompress.PutLiteral` | src/saprfclib/compress.py:812-816 | A literal goes to the output and the window, which stays the history of the output |
| `Lzh.LzhDecompress.CopyChunk` | src/saprfclib/compress.py:840-845 | One run that wraps on neither side copies exactly as byte by byte |
| `Lzh.LzhDecompress.CopyMatch` | src/saprfclib/compress.py:831-845 | The chunked, wrapping, overlapping copy appends the bytes of a byte-at-a-time copy from `distance` back, for every distance up to the window size, and terminates |
| `Lzh.LzhDecompress.ReadBlock` | src/saprfclib/compress.py:795-845 | A block adds to the output the LZ77 expansion of exactly the tokens its bits hold, and fails exactly when the bits are not a block |
| `Lzh.GetLenStarts` | src/saprfclib/compress.py:677-691 | The length bases are those of section 3.2.5 of RFC 1951 |
| `Lzh.GetDistStarts` | src/saprfclib/compress.py:694-706 | The distance bases are those of section 3.2.5 of RFC 1951 |
| `Lzh.ReadMatchLength` | src/saprfclib/compress.py:821-824 | The match length is the base of its code plus the extra bits |
| `Lzh.ReadMatchDistance` | src/saprfclib/compress.py:826-830 | The match distance is the base of its code plus the extra bits, refused beyond the window |
| `LzhBlock.BlockIff` | src/saprfclib/compress.py:795-845 | Reading the bits of any block (any items, any valid trees) gives its tokens and stops right behind the end-of-block word exactly when every symbol has enough bits behind it to be looked at, or is a literal or length as long as the end-of-block word; otherwise the block is refused |
| `LzhBlock.TooCloseToTheEnd` | src/saprfclib/compress.py:582-592 | A valid block whose one literal stands too close to the end of the data is refused, and read with one more bit behind it |
| `LzhBlock.StaticTreesValid` | src/saprfclib/compress.py:654-674 | Both static trees are valid and the literal/length one is complete |
| `LzhBlock.StaticRoom` | src/saprfclib/compress.py:803-809 | A static block can be read to its end with no bit behind it: the two-staged read of the end-of-block word makes it so |
| `LzhBlock.MatchHasCodes` | src/saprfclib/compress.py:677-706 | Every match length 3 to 258 and every distance up to the window has codes |
| `LzhBlock.LengthInRange` | src/saprfclib/compress.py:821-824 | No length code reaches past 258 |
| `LzhTrees.ReadEncodedLengths` | src/saprfclib/compress.py:765-793 | The list of code lengths read is the one its runs stand for; a run that overshoots the count is refused |
| `LzhTrees.ReadDynamicTrees` | src/saprfclib/compress.py:743-762 | The two trees of a dynamic block are built from the lengths its header holds |
| `LzhTrees.LengthsIff` | src/saprfclib/compress.py:765-793 | A list of code lengths is read back, however it was split into runs, exactly when every run can be looked at with what is behind it; otherwise it is refused |
| `LzhTrees.TreesIff` | src/saprfclib/compress.py:743-762 | A tree header gives both lists back and the reader stops right after it exactly when every run of both can be looked at with what is behind the header; otherwise it is refused |
| `LzhStream.Decompress` | src/saprfclib/compress.py:718-741 | The whole decompressor: header, noise bits and blocks; the output is the expansion of the tokens of all blocks together, the window carrying over |
| `LzhStream.TakeBlock` | src/saprfclib/compress.py:720-732 | One block, static or dynamic, adds the expansion of its tokens; any other type is refused |
| `LzhStream.StreamIff` | src/saprfclib/compress.py:718-732 | Reading any run of valid blocks gives the tokens of all of them and stops behind the one marked last exactly when every tree header and every item of every block can be looked at with the rest of the stream behind it; otherwise it is refused |
| `LzhStream.FileIff` | src/saprfclib/compress.py:718-741 | A file of any valid blocks, with any noise, decompresses to the LZ77 expansion of their tokens exactly when its last headers and items can be looked at, the padding of the last byte counted, and fails otherwise |
| `LzhNearEnd.RefusedFile` | src/saprfclib/compress.py:718-741 | In bytes: a file of one valid dynamic block that ends the data is refused, and gives its letter with one more byte behind it, for the LZH reader and the public one |
| `LzhStream.FileBack` | src/saprfclib/compress.py:718-741 | With 15 bits behind the last block, or static blocks only, every file of valid blocks decompresses to the expansion of their tokens |
| `LzhStream.EveryListHasFile` | src/saprfclib/compress.py:718-741 | Every list of literals and allowed matches has a file that decompresses to its expansion |
| `Lz4.TakeLength` | src/saprfclib/compress.py:917-923 | A 4-bit length with its extension bytes, ended by the first byte that is not 255 or by the end of data |
| `Lz4.CopyMatch` | src/saprfclib/compress.py:958-959 | The match copy is the overlapping LZ77 copy |
| `Lz4.Lz4BlockDecompress` | src/saprfclib/compress.py:900-968 | The decoder's result on every input, errors included, is that of the sequence-by-sequence meaning |
| `Lz4.SerialiseBack` | src/saprfclib/compress.py:900-968 | Decoding the serialisation of any valid list of sequences and any literal tail gives its LZ77 meaning; overlaps and length extensions included |
| `Lz4.SapLz4FrameDecompress` | src/saprfclib/compress.py:978-1006 | A frame gives the meaning of its block, of the declared length, and is refused exactly for marker, size, block or length |
| `Lz4.FrameBack` | src/saprfclib/compress.py:978-1006 | A frame around a valid block, with anything behind it, gives the block's meaning |
| `Tlv.ReadItem` | src/saprfclib/invoke.py:1243-1275 | One step of the record walk: short, terminator, overrun, or a record with its close tag skipped |
| `Tlv.ParseTlvStream` | src/saprfclib/invoke.py:1229-1276 | The parser returns the last value of every tag before the terminator, and raises exactly on an overrun |
| `Tlv.TlvStreamStatus` | src/saprfclib/invoke.py:1820-1862 | The classifier: complete when the walk meets the terminator, otherwise truncated when a record was read, otherwise not TLV (where its documentation says a cleanly ended stream is not TLV, the code says truncated) |
| `Tlv.RecordBack` | src/saprfclib/invoke.py:238-254 | A written record is read back, whatever follows: extended lengths and values that start or end with their own tag included |
| `Tlv.StreamBack` | src/saprfclib/invoke.py:1229-1276 | A stream of records gives back exactly these records, whatever follows its terminator |
| `Tlv.PrefixStatus` | src/saprfclib/invoke.py:1820-1862 | A stream cut at any byte is complete exactly when the terminator header is there, and truncated exactly when it is not but the first record's value is |
| `Tlv.ParserAgrees` | src/saprfclib/invoke.py:1229-1276 | A stream the classifier calls complete always parses, and one it calls not TLV yields no tag |
| `Replies.RaiseForRfcError` | src/saprfclib/invoke.py:1040-1126 | The error check on any bytes: a gateway error or an unparsable stream is a communication error, an exception or a return code other than 0 an ABAP error, a return code of another length a ValueError; anything else passes |
| `Replies.PassesIff` | src/saprfclib/invoke.py:1040-1126 | Told by the records: bytes pass exactly when they are no gateway error, no record runs off the end, none is an exception, and the last return code is four zero bytes or there is none |
| `Frames.Transport.RecvMessage` | src/saprfclib/connection.py:1670-1687 | Receiving takes the first queued frame, or fails when none comes in time |
| `Frames.JoinResponseFrames` | src/saprfclib/connection.py:1653-1698 | The joiner takes frames one after the other while the stream is truncated; a frame that does not come in time is told apart from a frame that calls itself final, a 257th frame and an empty one |
| `Frames.JoinIsPrefix` | src/saprfclib/connection.py:1653-1698 | What is joined is a prefix of the reply that is not a truncated stream; the rest stays queued |
| `Frames.JoinStopsFirst` | src/saprfclib/connection.py:1653-1698 | Joining stops at the first frame boundary where the stream is not truncated |
| `Sessions.Session.RequireState` | src/saprfclib/session.py:417-434 | The guard refuses exactly the states not allowed; on a broken session it names the original cause |
| `Sessions.Session.Do` | src/saprfclib/session.py:186-212 | Every operation moves the state, or raises and leaves it, as the state machine says |
| `Sessions.BrokenIsTerminalIff` | src/saprfclib/session.py:446-498 | A broken session stays broken, as the source promises, exactly in the runs without `start`, `begin_ws_session` and the `complete_ws_...` operations |
| `Sessions.BrokenEscapes` | src/saprfclib/session.py:488-498 | A concrete run that makes a broken session ready again |
| `Calls.Connection.Call` | src/saprfclib/connection.py:5053-5107 | A call is refused unless ready, and leaves session and queue as the call step says on every path |
| `Calls.Connection.SendAndReadReply` | src/saprfclib/connection.py:1731-1762 | Any failure between send and parse, except an ABAP error, retires the session |
| `Calls.OwnReply` | src/saprfclib/connection.py:5087-5101 | With an empty queue a reported reply is the call's own, cut no earlier than behind the terminator header |
| `Calls.LeftoverFails` | src/saprfclib/connection.py:1731-1762 | Leftover bytes of an earlier reply make the next call fail and retire the session; they are never reported |
| `Calls.CallIsSafe` | src/saprfclib/connection.py:5053-5107 | One call reports exactly the records of its own reply, or fails and leaves the session broken, or changes nothing |
| `Calls.CallsArePaired` | src/saprfclib/connection.py:5053-5107 | Over every run of a fresh connection, however replies are cut into frames: a reported result or ABAP error is the call's own, any other failure breaks the session, and every later call is refused |
| `Calls.BrokenForGood` | src/saprfclib/session.py:446-466 | On a broken session every later call and mark leaves it broken and is refused |
| `Calls.InStepIff` | src/saprfclib/connection.py:1653-1698 | After a reported reply the queue is empty exactly when no frame ended inside the last two bytes of the reply |
| `Calls.SplitTerminatorCostsTheNextCall` | src/saprfclib/connection.py:1653-1698 | When a frame did end there, one or two bytes before the end, the next call, whatever it is answered with, fails and retires the session |
| `Calls.CutTwoBytesEarly` | src/saprfclib/connection.py:1653-1698 | Such a run in bytes: a two-frame reply cut two bytes early is reported, and the next call, answered in full, fails |
| `Results.CallReturnsResult` | src/saprfclib/connection.py:5087-5101 | A call answered with the server's response to a handler's result, however cut: it returns exactly when the first record header comes in one piece and the rest in time, and then it returns that result in normal form; otherwise the session is retired |
| `Results.RunReturnsResults` | src/saprfclib/connection.py:5053-5107 | Over every run of a fresh connection, a call answered with the response to a handler's result that returns, returns that result in normal form, whatever came before it |
| `Pools.ConnectionPool.constructor` | src/saprfclib/pool.py:169-203 | A warmed-up pool holds the given connections idle and satisfies the invariant |
| `Pools.ConnectionPool.Create` | src/saprfclib/pool.py:175-180 | The pool refuses exactly a negative minimum, a maximum below one and a minimum above the maximum |
| `Pools.ConnectionPool.LoopTop` | src/saprfclib/pool.py:280-351 | One turn of the checkout loop: closed, reuse, grow, give up or sleep, in this order |
| `Pools.ConnectionPool.Checkout` | src/saprfclib/pool.py:267-351 | Whatever other callers do in its lock gaps, a checkout is a run of pool steps, and it holds a connection exactly when it returns one |
| `Pools.ConnectionPool.AfterTry` | src/saprfclib/pool.py:296-319 | After the ping the candidate is lent, or counted out to be closed outside the lock |
| `Pools.ConnectionPool.AfterGrow` | src/saprfclib/pool.py:322-343 | After the open the new connection is lent, or the reserved slot is given back with a notify |
| `Pools.ConnectionPool.Release` | src/saprfclib/pool.py:353-369 | A release makes the connection idle with one notify, or closes it when the pool was closed meanwhile |
| `Pools.ConnectionPool.Close` | src/saprfclib/pool.py:412-428 | Closing wakes everybody, closes what was idle in order, and is idempotent |
| `Pools.StepSound` | src/saprfclib/pool.py:267-428 | Every step of every caller keeps the invariant: accounting, wake-ups, one holder per connection |
| `Pools.ReachableSound` | src/saprfclib/pool.py:267-428 | The invariant holds in every state any interleaving can reach |
| `Pools.NoLostWakeUp` | src/saprfclib/pool.py:280-369 | On an open pool with a sleeper, every usable slot has a call on its way, woken already or still owing a notify |
| `Pools.NobodyStranded` | src/saprfclib/pool.py:280-369 | If nobody is on the way, a sleeper means every slot is lent, being checked or being opened |
| `Pools.SlotsConserved` | src/saprfclib/pool.py:199-369 | created = idle + in use + opens in flight and never above max_size; acquires = hits + creates - opens in flight |
| `Pools.OneHolder` | src/saprfclib/pool.py:267-369 | A lent connection has one holder, is idle nowhere and has not been closed |
| `Pools.NeverClosedTwice` | src/saprfclib/pool.py:242-248 | No connection is closed twice, and only connections the pool opened are |
| `Pools.EverythingClosedOnce` | src/saprfclib/pool.py:412-428 | After `close()` and the last release every connection ever opened has been closed exactly once |
| `Pools.TimesOutIff` | src/saprfclib/pool.py:340-351 | A caller times out exactly when its deadline has passed with every slot in use or being opened |
| `Dpd.BuildDpdTables` | src/saprfclib/codec.py:137-176 | The encode table holds every digit trio under its declet; the decode table holds exactly the 1000 canonical declets |
| `Dpd.DigitsOfDeclet` | src/saprfclib/codec.py:137-176 | Reading a packed trio by the standard's table gives the trio back, and the declet is never redundant |
| `Dpd.DecletOfDigits` | src/saprfclib/codec.py:137-176 | Packing what a declet reads as gives it back exactly when it is not one of the 24 redundant patterns |
| `Decfloat.EncodeDecfloat` | src/saprfclib/codec.py:222-268 | The loop over digit trios and the field packing compute the value's IEEE 754-2008 form, and refuse exactly width, digits or exponent |
| `Decfloat.DecodeDecfloat` | src/saprfclib/codec.py:182-219 | The decoder returns what the fields say, and fails on another length or a redundant declet |
| `Decfloat.DecodeEncoded` | src/saprfclib/codec.py:182-268 | Decoding an encoded value gives sign, digits and exponent back, for both widths; a NaN loses its payload |
| `Decfloat.EncodeDecoded` | src/saprfclib/codec.py:182-268 | Encoding a decoded value restores the bytes: always for numbers, and for infinities and NaNs exactly when the bits below the combination field were clear |
| `Decfloat.EncodesIff` | src/saprfclib/codec.py:222-250 | A value is refused exactly for its width, its number of digits or its exponent range |
| `Decfloat.DecodesIff` | src/saprfclib/codec.py:182-219 | Bytes are refused exactly for their length or a redundant declet in a number (the standard gives such a declet a value) |
| `Decfloat.RedundantRefused` | src/saprfclib/codec.py:146-175 | 888 in eight bytes with a redundant declet, to which the standard gives that value, is refused; with the declet the encoder writes it is decoded |
| `Decfloat.EncodingsDiffer` | src/saprfclib/codec.py:222-268 | Different values never share an encoding, and no number is taken for an infinity or a NaN |
| `Bcd.EncodeBcd` | src/saprfclib/codec.py:464-501 | The nibble loop writes the stored integer and a canonical sign, and refuses exactly what does not fit |
| `Bcd.DecodeBcd` | src/saprfclib/codec.py:427-461 | The decoder refuses short buffers, bad signs and bad digits, and otherwise scales the digits |
| `Bcd.EncodedField` | src/saprfclib/codec.py:464-501 | An encoding is exactly `width` bytes, its digits at most 9 and spelling the stored integer, its sign canonical; it exists exactly when the integer has at most 2*width-1 digits |
| `Bcd.DecodeEncoded` | src/saprfclib/codec.py:427-501 | Decoding gives the stored integer times 10^-decimals |
| `Bcd.StoredNear` | src/saprfclib/codec.py:483-492 | A value of at most 28 significant digits is stored within half a unit, and exactly when it is a whole number of units |
| `Bcd.StoredExactIff` | src/saprfclib/codec.py:483-492 | The stored integer is the value exactly for whole values of at most 28 significant digits |
| `Bcd.RoundTripIff` | src/saprfclib/codec.py:427-501 | Encoding and decoding return the value exactly when it is a whole number of units with at most 28 significant digits: scaleb rounds anything longer |
| `Bcd.LongValueRounded` | src/saprfclib/codec.py:427-501 | A value of 29 digits in a field of 31 encodes and comes back as another value |
| `Bcd.EncodeDecoded` | src/saprfclib/codec.py:427-501 | Decoding and encoding restore the bytes exactly for a canonical sign nibble and at most 28 significant digits |
| `Leaves.LeafBack` | src/saprfclib/codec.py:717-798 | Every scalar type encodes to its declared length and decodes, zero fill included, to its normal form |
| `Leaves.TextBack` | src/saprfclib/codec.py:377-396 | Text is padded or cut to the field's width and comes back so |
| `Leaves.IntBack` | src/saprfclib/codec.py:717-798 | Integers in range come back, two's complement and little-endian |
| `Layouts.EncodeStructureInto` | src/saprfclib/codec.py:656-697 | The loop over the fields lays out every supplied or initial value, recursing into nested structures, errors included |
| `Layouts.DecodeStructureFrom` | src/saprfclib/codec.py:525-555 | The loop over the fields reads every span, refusing one that leaves the buffer |
| `Layouts.DecodeTableFrom` | src/saprfclib/codec.py:558-633 | The row width comes from the announced count; a buffer that does not divide, or gives too narrow rows, is refused |
| `Layouts.StructureBack` | src/saprfclib/codec.py:525-697 | Encoding fills exactly the declared size with zeros in the gaps, and decoding returns the values in normal form, to any depth |
| `Layouts.NormalFields` | src/saprfclib/codec.py:283-311 | The normal form holds every field of the layout and nothing else: the supplied value's normal form or the initial value's |
| `Layouts.EncodesIff` | src/saprfclib/codec.py:656-697 | Which structures encode, to any depth: those whose every value is of its field's type and range and that leave no DECFLOAT, nor a structure holding one, unset |
| `Layouts.UnsetIff` | src/saprfclib/codec.py:283-311 | A structure left wholly unset encodes from initial values, as the source promises, exactly when its layout holds no DECFLOAT at any depth: the initial value of a DECFLOAT is text, which its encoder refuses |
| `Layouts.UnsetDecfloatRefused` | src/saprfclib/codec.py:283-311 | An unset DECFLOAT field refuses its structure whatever the other values and however unsound the layout |
| `Layouts.WidthIndependent` | src/saprfclib/codec.py:558-633 | With the announced count, rows padded to any width at least the layout's decode to the same rows |
| `Layouts.TableBack` | src/saprfclib/codec.py:700-709 | A packed table comes back, with the count or without |
| `Layouts.CountedRows` | src/saprfclib/codec.py:558-633 | Rows are only read from a buffer that divides into rows at least as wide as the layout, and then exactly as many as announced |
| `Pairs.ExtractNameValuePairs` | src/saprfclib/invoke.py:1505-1709 | The walk reports every named value, table and row count as its record-by-record meaning says |
| `Pairs.TableFed` | src/saprfclib/invoke.py:1505-1709 | A table without an end tag is reported when the next group starts: its rows joined, its count kept |
| `Pairs.ScalarFed` | src/saprfclib/invoke.py:1505-1709 | A name and a value record report one pair, and the table in progress before them |
| `CompressedTables.DecompressTableStream` | src/saprfclib/invoke.py:1451-1490 | The fragments of a compressed table are joined, the stream found behind a wrapper or at once, and decompressed to the length its own header gives |
| `CompressedTables.StartFound` | src/saprfclib/invoke.py:1467-1483 | A stream behind any eight-byte wrapper is found; one that comes without is found exactly when it does not show the magic again eight bytes further on |
| `CompressedTables.RowsBack` | src/saprfclib/invoke.py:1451-1490 | Rows compressed by either algorithm come back from behind any wrapper; from a stream without one, as the source promises, exactly when the magic does not show again eight bytes further on, or what starts there stands for the same rows |
| `CompressedTables.BareRefused` | src/saprfclib/invoke.py:1451-1490 | In bytes: a bare LZC stream that stands for its row but shows the magic again is refused, and read behind a wrapper |
| `CompressedTables.CompressedFed` | src/saprfclib/invoke.py:1505-1709 | However a compressed table is cut into fragments, the walk reports its name with the rows as they were before compression, and keeps its count |
| `Messages.BuildResponseMessage` | src/saprfclib/server.py:1409-1488 | The response builder emits the groups of the returned parameters in order |
| `Messages.BuildRequestMessage` | src/saprfclib/invoke.py:304-438 | The request builder refuses unknown names and emits declarations and groups in order |
| `Messages.ParseInvokeResponse` | src/saprfclib/invoke.py:1129-1221 | The response parser classifies the reply, walks it and decodes every known value with its announced row count |
| `Messages.ResponseBack` | src/saprfclib/server.py:1409-1488 | For any sound descriptor with distinct names and any handler result: parsing the built response returns the result in normal form, empty tables and tables without end tags included |
| `Messages.RequestBack` | src/saprfclib/server.py:1289-1324 | For any sound descriptor and arguments: the server reads from the built request every value sent, in normal form |
| `Messages.IdsAgree` | src/saprfclib/invoke.py:278-301 | The table ids kept for the reply are the ids the request carries, numbered from 1 |
| `ReturnedTables.SentUnderId` | src/saprfclib/invoke.py:304-438 | Every table sent stands in the request under the id under which the client keeps its name, whatever is sent after it |
| `ReturnedTables.DeltaFed` | src/saprfclib/invoke.py:1659-1699 | A table that comes back under an id is reported, with its rows, under the name kept for the id |
| `ReturnedTables.ReturnedById` | src/saprfclib/invoke.py:1129-1221 | A table that was sent with rows and comes back, changed or not, under its id is returned in normal form under the parameter that sent it |
| `Messages.ReadsAsSuccess` | src/saprfclib/invoke.py:1040-1126 | A built response reads as a success |
| `Trfc.FrameBack` | src/saprfclib/invoke.py:503-581 | The server reads from a tRFC frame the TID the client put in, and the function exactly when its name does not end in a NUL or a blank |
| `Trfc.ReplyRead` | src/saprfclib/connection.py:5270-5281 | How a server's reply reads, however it is cut into frames: with the first record header in one piece only return code 0 reads as success, and only once the rest has come; with a first piece of fewer than four bytes every reply reads as success |
| `Trfc.TidServer.Dispatch` | src/saprfclib/server.py:850-948 | Validate, check, mark received, run, mark executed or rolled back: the state and reply of every delivery |
| `Trfc.AtMostOnce` | src/saprfclib/server.py:850-948 | Over all deliveries and re-deliveries a handler succeeds at most once for each TID, and the store says so exactly |
| `Trfc.TrfcClient.SendOnce` | src/saprfclib/connection.py:5270-5281 | One attempt: send, join whatever frames come, and put what was joined to the error check; the server side of it is any other deliveries and then the request, unless it is lost |
| `Trfc.TrfcClient.Submit` | src/saprfclib/connection.py:5169-5251 | At most max_retries+1 sends of identical bytes, retrying only communication errors; exhaustion parks exactly those bytes; an ABAP error or an unreadable reply ends it at once |
| `Trfc.RetryEnds` | src/saprfclib/connection.py:5169-5251 | A submit ends at its first attempt that reads as anything but a communication error, or after max_retries+1 |
| `Trfc.ReplyProves` | src/saprfclib/server.py:850-948 | What each reply proves about the TID by any later attempt: success means none before and exactly one from then on, RFC_EXECUTED exactly one before, failure none so far |
| `Trfc.ExactlyOnce` | src/saprfclib/connection.py:5169-5292 | A normal return on a reply of the server, its own or a late one, with its first record header in one piece, implies exactly one success; a refusal implies one before the answered request or none until then; at most one in any case |
| `Trfc.ReturnsNormallyIff` | src/saprfclib/connection.py:5169-5292 | Over a channel that loses but adds nothing, a submit returns normally exactly when its first attempt that is no communication error runs the handler with success for the first time and its whole reply comes back |
| `Trfc.EmptyFrameReturns` | src/saprfclib/connection.py:5270-5281 | A submit answered with a bare gateway header returns normally although the request was lost and nothing ran |
| `Trfc.CutFailureReturns` | src/saprfclib/connection.py:5270-5281 | When the handler fails or is missing, the server answers with a failure; cut inside its first record header, that answer ends the submit normally, and the TID has had no success |
| `Trfc.LostReplyIsRefused` | src/saprfclib/server.py:1374-1390 | RFC_EXECUTED is documented as no error, but a retry after a lost reply is refused although the call has run |
| `Bgrfc.CallNameOf` | src/saprfclib/server.py:1158-1196 | The server takes from a buffered call its name up to the first zero code unit, trailing blanks stripped |
| `Bgrfc.CallNameIff` | src/saprfclib/connection.py:3851-3868 | The name the client buffered is the one the server looks up exactly when it holds no NUL and does not end in a blank |
| `Bgrfc.UnitHandle.Exit` | src/saprfclib/connection.py:3822-3868 | Leaving the block sends one frame with all buffered calls, or none when the block raised or the unit was submitted |
| `Bgrfc.UnitServer.Dispatch` | src/saprfclib/server.py:954-1096 | Validate, check, persist, run the calls up to the first failure, confirm: the state and reply of every shipment |
| `Bgrfc.UnitServer.RunBuffered` | src/saprfclib/server.py:1034-1054 | The loop runs the declared calls in order and stops at the first error |
| `Bgrfc.RunsArePrefix` | src/saprfclib/server.py:1034-1054 | The handlers run are a prefix of the declared calls, all but the last successful, ending at the first that is missing, unknown or fails |
| `Bgrfc.ConfirmedIff` | src/saprfclib/server.py:1014-1096 | The unit is confirmed exactly when every declared call was present and succeeded |
| `Bgrfc.UnitRead` | src/saprfclib/invoke.py:674-741 | The server reads from the frame the unit's id, type and number of calls |
| `Bgrfc.UnitShipped` | src/saprfclib/server.py:954-1096 | A unit built by the client and shipped runs its calls in order up to the first that does not succeed, and is confirmed exactly when all did |
| `Bgrfc.ReshipRepeats` | src/saprfclib/server.py:1012-1054 | A unit that stopped short and is shipped again runs the calls before the failure twice: the server undoes no handler |
| `Bgrfc.UnitServer.DispatchConfirm` | src/saprfclib/server.py:1098-1117 | A confirmation marks whatever unit it names confirmed, seen before or not, and runs nothing |
| `UnitRuns.Serve` | src/saprfclib/server.py:954-1117 | The server object answers every history of shipments and confirmations as the functions on histories say |
| `UnitRuns.DoneIff` | src/saprfclib/server.py:997-1117 | In every history a unit is done exactly when one of its shipments was acknowledged or a confirmation of it came |
| `UnitRuns.NothingRunsAfterDone` | src/saprfclib/server.py:997-1006 | Once done a unit stays done, and every later shipment of it runs no handler, changes nothing and is answered RFC_EXECUTED |
| `UnitRuns.AcknowledgedOnce` | src/saprfclib/server.py:954-1096 | At most one shipment of a unit is ever acknowledged |
| `UnitRuns.AcknowledgedRan` | src/saprfclib/server.py:1034-1096 | The acknowledged shipment ran every declared call, in order, each through |
| `UnitRuns.ExecutedRanIff` | src/saprfclib/server.py:997-1117 | RFC_EXECUTED on a unit means that it ran in full before exactly when no confirmation of it came ahead of its first acknowledged shipment |
| `UnitRuns.ConfirmedUnseen` | src/saprfclib/server.py:1098-1117 | A history in bytes: a unit confirmed before it was shipped is answered as executed and never run |
| `UnitRuns.OneFailureRunsTwice` | src/saprfclib/server.py:1012-1054 | A history in bytes: a two-call unit whose second handler fails once is acknowledged on its second shipment, its first handler having run through twice |

## Left out

- `AsyncConnectionPool` and task cancellation: cancellation skips the bookkeeping the invariants are about.
- The serving loops, gateway handshake frames, SNC, SOCKS, router, WebSocket logon and metadata lookup: byte templates and foreign calls.
- `_call_bootstrap`, `ping` and `call_transactional` as users of a connection: they read one frame, or run outside `_fail_closed`; `Calls` covers the joined, fail-closed call. Date and time conversion after the reply has been read is not modelled either; it touches no frame.
- The 0x5001 compact block and the XML tables: heuristic scanners. Requests that carry neither 0x0201 nor 0x0301 records are read as empty.
- STRING, XSTRING and FLOAT values, tables inside structures, non-Unicode layouts and text outside the BMP: variable-length or foreign encodings that add no case to the layout proofs.
- Non-ASCII parameter names: `Pairs.GoodName` restricts names to ASCII, which ABAP names are, because `str.upper` on other text is not modelled.
- The caching of the static Huffman trees between blocks: the model builds them for each block. A failed decompression is one error, whatever its message.
- User-installed transaction and unit callbacks, process crashes and the Sqlite stores. The client's own `confirm_unit` goes through an ordinary call with other parameter names than this server reads; confirmations are frames of any content here.
- `Decimal` infinities and NaNs in packed decimal fields, and exponents beyond the decimal context's limits.
- The wait-time statistics of `PoolMetrics`, and the password scramble: they would only add easy members.
- Pools.ConnectionPool.Close: does not let other callers run between the closing of one idle connection and the next; the step relation does (`Close` and `DrainOne` are separate steps in `Pools.StepSound`).
- Calls.Connection.Call: starts behind the descriptor lookup; the bootstrap on a cache miss reads one frame outside `_fail_closed`.
- Leaves.LeafBack: has no STRING, XSTRING and FLOAT, whose encodings are UTF-8, the bytes themselves and a foreign packing.
- Layouts.EncodeStructureInto: has no tables inside structures, which encode to a variable extent.
- Layouts.DecodeStructureFrom: has no tables inside structures.
- Layouts.StructureBack: has no tables inside structures.
- Pairs.ExtractNameValuePairs: has no XML table blocks.
- Messages.ParseInvokeResponse: has no XML tables.
- Trfc.TidServer.Dispatch: has neither installed callbacks nor the compact-block fallback for the TID.
- Bgrfc.UnitServer.Dispatch: has neither installed callbacks nor the wider number syntax of Python's `int` (blanks, underscores, other digits).
- Layouts.EncodesIff: takes numbers as numbers only; the source's encoders for integers, packed decimals and DECFLOAT also take text and other types that convert to a number.
