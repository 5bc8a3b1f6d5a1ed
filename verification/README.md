# Gateway verification

This project models three parts of a condition-monitoring gateway and proves what they are for.

**The WaveSnap codec** (`DWT_Huffman/source`) compresses vibration waves: a Haar transform in place, thresholding and
quantisation, a static Huffman code with an escape for raw values, an encoder that works in chunks of 100 symbols
through a 1024-byte buffer, and a decoder that slides a 1024-byte window over the stream. The arrays, the bit cursor,
the heap nodes of the decoding tree and the loops are modelled as the C code has them; each is proved against a simple
functional description, and the round trips, the equality of chunked and one-shot coding, and the error bound of the
whole program are theorems about those descriptions. Samples are `float` in the program but integers after every
stage, so they are integers here. The coder is proved for any table with an escape entry; `PDM_STATIC_TABLE` is the
one it uses.

**AVDTP** (`bluez-5.66/android/avdtp.c`): messages cut into packets and put together again, capability lists, the
queues of requests behind a single outstanding one, and the streams of one session with their end points. Streams are
records named by identity, so that a reference to a freed stream can be told from a live one. The invariant is a
postcondition of every handler; `AvdtpRuns` draws the conclusions for whole runs. The class `AvdtpSession.Avdtp` holds
the fields of the C structure and its methods are proved against those handlers; `Handle` takes any event, so that the
run theorems hold of the object.

**AVRCP continuation and bonds** (`avrcp-lib.c`, `bluetooth.c` in `bluez-5.66/android`): responses cut on demand, and
remote devices between a bounded cache and the bonded list.

Eight promises turn out to hold only in part. Each is stated with its exact condition and a failing input:

- `inverse_haar_transform` stops at its deepest level when that has fewer than two entries, so short waves are not
  restored: `Reconstruction.ReconstructsExactlyWhen`, `WaveSnap.BoundedExactlyWhen`.
- The value 32767 is coded as a bare escape: `EscapeLimit.SurvivesExactlyWhen`. The codec never produces it.
- Nothing looks at the size of the encoder's output, two bytes a sample, which a loud wave exceeds:
  `OutputRoom.CopiesFitExactlyWhen`, `WaveSnap.Run`, `WaveSnap.LoudWaveDoesNotFit`. The model stops at such a copy.
- AVDTP reassembly has an eight-bit size, and the announced number of packets is one too many when the last packet is
  full: `AvdtpMessages.TransferExactlyWhen`.
- An answer that breaks the connection leaves the outstanding request with its freed stream:
  `AvdtpRuns.RunsLiveExactlyWhen`, `AvdtpRuns.DanglingIsReachable`.
- A second open command arms a second timer, and only the last one is stopped with its stream:
  `AvdtpTimers.SafeExactlyWhenNeverArmedTwice`, `AvdtpTimers.DoubleOpenLosesTimer`.
- When requests wait and none is outstanding, after one was cancelled or given up or could not be sent, a new request
  overtakes them: `AvdtpOrder.ChannelInOrderExactlyWhen`, `AvdtpQueueRuns.TimeoutInOrderExactlyWhen`, with
  `AvdtpOrder.CancelledReorders` and `AvdtpOrder.FailedSendReorders`.
- `avdtp_set_configuration` takes a local end point that has a stream already, which then loses its end point:
  `AvdtpHandlers.ConfigurationKeepsExactlyWhen`.

Methods are proved against functional descriptions. What those say is stated a second time without them, by arithmetic,
by bytes, or field by field, for every operation: `Haar.LevelLayout`, `StoredBytes`, `AvdtpPackets`, the events of a
session in `AvdtpCommands`, `AvdtpStreamCommands`, `AvdtpCalls`, `AvdtpAnswers` and `AvdtpLosses`, and so on.

The end-to-end error of the codec is at most 997, which is attained.

The documentation of `huffman_encode_static` says that -1 means the code is longer than the buffer. The code checks
that only in check mode; when encoding it returns -1 when the code does not fit behind the cursor. The model follows
the code.

`dafny verify dfyconfig.toml` checks everything.

## Model

| member | source | states |
|---|---|---|
| Rounding.RoundHalf | DWT_Huffman/source/dwt.c:43-44 | `round(x / 2.0f)` on integers: exact for even `x`, away from zero for odd `x` |
| Rounding.RoundDiv | DWT_Huffman/source/dwt.c:130 | `round(x / step)` by its meaning: no integer is nearer, and a tie goes away from zero |
| Rounding.RoundDivUnique | DWT_Huffman/source/dwt.c:130 | those two conditions leave exactly one integer |
| Haar.ShiftIsHalving | DWT_Huffman/source/dwt.c:30-31 | `n / (1 << l)` is halving `l` times, so each level works on the averages of the one before |
| Haar.TransformPair | DWT_Huffman/source/dwt.c:43-49 | one turn of the in-place loop, with its overlapping `memmove`, takes the layout after `j` pairs to the layout after `j + 1` |
| Haar.TransformLevel | DWT_Huffman/source/dwt.c:38-65 | the in-place loop computes the simple layout `Level`, whether the length is odd or even: of each pair the halves of its sum and of its difference, rounded away from zero, sums in front |
| Haar.LevelLayout | DWT_Huffman/source/dwt.c:38-65 | one level by arithmetic: twice the average of a pair is its sum, or the next even number away from zero if that is odd, and the same of its difference; averages in order, then differences; an odd tail and everything past the level stay |
| Haar.UnlevelLayout | DWT_Huffman/source/dwt.c:91-100 | one inverse level by arithmetic: sum and difference of each average and its difference, side by side |
| Haar.HaarTransform | DWT_Huffman/source/dwt.c:20-67 | all levels in place are the composition `Forward` of simple levels, each on the averages of the last, none on fewer than two entries |
| Haar.MergePair | DWT_Huffman/source/dwt.c:93-99 | one turn of the inverse loop keeps the merged front, the waiting averages and the waiting differences in place |
| Haar.MergeLevel | DWT_Huffman/source/dwt.c:91-100 | the in-place inverse loop computes `Unlevel`, entries past the level unchanged |
| Haar.InverseHaarTransform | DWT_Huffman/source/dwt.c:75-102 | all inverse levels, deepest first; it gives up at once when the deepest level has fewer than two entries |
| Reconstruction.ForwardNext | DWT_Huffman/source/dwt.c:20-67 | level `l` halves the pairs of the first `n / 2^l` entries, and nothing happens from the first level on that has fewer than two |
| Reconstruction.UnwindNext | DWT_Huffman/source/dwt.c:75-102 | an inverse level merges the pairs of what the deeper levels give |
| Reconstruction.InverseGivesUp | DWT_Huffman/source/dwt.c:86-89 | the inverse transform leaves everything as it is exactly when its deepest level has fewer than two entries |
| Reconstruction.PairReconstruction | DWT_Huffman/source/dwt.c:93-99 | a pair with an even sum comes back exactly; with an odd sum exactly one member is off, by exactly 1 |
| Reconstruction.LevelUnlevel | DWT_Huffman/source/dwt.c:91-100 | a forward level undoes an inverse level exactly, for every coefficient sequence |
| Reconstruction.UnwindForward | DWT_Huffman/source/dwt.c:20-102 | `L` levels and back bring every integer sample back to within `L`, for every length of at least `2^L` |
| Reconstruction.ForwardUnwind | DWT_Huffman/source/dwt.c:20-102 | the other way round the transform is exact: every coefficient sequence is the transform of its inverse |
| Reconstruction.ReconstructsExactlyWhen | DWT_Huffman/source/dwt.c:86-89 | the reconstruction bound holds for all waves of `n` samples if and only if `n < 2` or `n >= 2^L` |
| Reconstruction.FlatWaveLost | DWT_Huffman/source/dwt.c:86-89 | for `2 <= n < 2^L` a flat wave of any value comes back with a zero sample: the inverse stops at its deepest level |
| Reconstruction.CoefficientRange | DWT_Huffman/source/dwt.c:41-64 | from 16-bit samples every coefficient of every level stays in [-32768, 32768] |
| Reconstruction.DisturbedReconstruction | DWT_Huffman/source/dwt.c:75-102 | if coefficients are disturbed within the quantiser's limits, every sample comes back within a bound that grows by a fixed amount per level |
| Quantizer.QuantizeAndThreshold | DWT_Huffman/source/dwt.c:112-132 | the two in-place loops compute the specified symbols: details below the threshold vanish, everything is divided and rounded |
| Quantizer.SymbolIsNearest | DWT_Huffman/source/dwt.c:112-132 | each symbol is the nearest number of steps, a tie going away from zero; from the first thirty-second of the wave on what is below the threshold counts as zero, and entries past `n` stay |
| Quantizer.InverseQuantize | DWT_Huffman/source/dwt.c:142-151 | the in-place loop multiplies the first `n` entries and nothing else |
| Quantizer.QuantizationError | DWT_Huffman/source/dwt.c:119-150 | quantising and back keeps an average or a kept detail within half a step, and turns a detail below the threshold to 0 |
| Bits.BitsInOrder | DWT_Huffman/source/huffman.c:337-354 | bit `p` of a buffer lies under the mask 0x80, 0x40, ..., 0x01 number `p % 8` of byte `p / 8` |
| Bits.ByteValue | DWT_Huffman/source/huffman.c:321-332 | a byte is the number that its eight bits stand for in the order of the stream |
| Bits.CodeBitAt | DWT_Huffman/source/huffman.c:307-336 | bit `i` of a code of `len` bits is the bit of weight `2^(len - 1 - i)` |
| Bits.CastsAreModulo | DWT_Huffman/source/huffman.c:126 | casts between `int16_t` and `uint16_t` keep the value modulo 2^16 |
| BitStream.Bitstream.WriteBit | DWT_Huffman/source/huffman.c:321-332 | one bit is ORed in at the cursor, most significant first: the byte gets the mask 0x80, 0x40, ..., 0x01 of the bit offset exactly for a one; the cursor moves by one bit across byte ends |
| BitStream.Bitstream.WriteCodeValue | DWT_Huffman/source/huffman.c:307-336 | ORs in the `len` low bits of a value, as many as there is room for, and returns -1 exactly when some did not fit |
| BitStream.Bitstream.ReadBit | DWT_Huffman/source/huffman.c:337-354 | the bit under the cursor and its mask, most significant first; -1, with the cursor unmoved, exactly at the end of the buffer |
| BitStream.Bitstream.ReadRawSymbol | DWT_Huffman/source/huffman.c:355-382 | sixteen bits read as an `int16_t`; -1 exactly when fewer are left |
| HuffmanTable.FindCode | DWT_Huffman/source/huffman.c:294-306 | the loop returns the first entry with the symbol, or none if no entry has it |
| HuffmanTable.StaticTable | DWT_Huffman/source/huffman_table.h:26-42 | every code has 1 to 8 bits and the escape entry 7 |
| HuffmanTable.EncodeBitsConcat | DWT_Huffman/source/huffman.c:90-136 | the code of a sequence is the codes of its parts in order |
| HuffmanTable.EncodeBitsLength | DWT_Huffman/source/huffman.c:64-78 | a sequence takes between 1 and 23 bits a symbol |
| HuffmanNodes.Descend | DWT_Huffman/source/huffman.c:167-188 | one step down the heap tree being built, with or without allocating the child, represents the tree with that path opened |
| HuffmanNodes.InsertEntry | DWT_Huffman/source/huffman.c:159-190 | following and labelling the path of one entry turns the represented tree into the one with that entry inserted |
| HuffmanNodes.BuildDecodingTree | DWT_Huffman/source/huffman.c:145-193 | the heap nodes built for a table represent its decoding tree: no sharing, every node reached by exactly its path |
| HuffmanTree.FinishedTree | DWT_Huffman/source/huffman.c:145-193 | the tree of the static table, in closed form |
| HuffmanTree.SymbolCode | DWT_Huffman/source/huffman_table.h:26-42 | the code of every 16-bit symbol in closed form: one zero for 0; for 5 to 10 and their negatives ones, a zero and the sign; seven ones and the value modulo 2^16 for all others but 32767, which has the seven ones only |
| HuffmanCodec.CountBits | DWT_Huffman/source/huffman.c:64-78 | check mode counts exactly the bits of the code |
| HuffmanCodec.WriteSymbol | DWT_Huffman/source/huffman.c:92-135 | writes the code of one symbol, or an escape and the raw value, as far as there is room |
| HuffmanCodec.HuffmanEncodeStatic | DWT_Huffman/source/huffman.c:40-139 | both modes: check returns the length of the code and 0 exactly when it fits the whole buffer; encoding ORs in the code from the cursor, returns its length and 0 exactly when it fits, else -1 with the part that fits written. From an empty cursor the two modes agree |
| HuffmanCodec.DecodeBit | DWT_Huffman/source/huffman.c:240-288 | one turn of the decoder over heap nodes is one step of decoding over the represented tree |
| HuffmanCodec.HuffmanDecodeStatic | DWT_Huffman/source/huffman.c:222-291 | the heap decoder delivers, returns and consumes exactly what decoding over the represented tree does, errors included |
| HuffmanProperties.StaticCodesLead | DWT_Huffman/source/huffman_table.h:26-42 | each code of the table leads to its own leaf of its tree |
| HuffmanProperties.WalkPath | DWT_Huffman/source/huffman.c:238-288 | a code that lies in the bits is walked to its leaf and yields its symbol, or the raw value behind an escape |
| HuffmanProperties.SymbolRoundTrip | DWT_Huffman/source/huffman.c:92-135 | the code of a symbol other than the escape symbol decodes to it, wherever it lies |
| HuffmanProperties.RoundTrip | DWT_Huffman/source/huffman.c:90-289 | wherever the code of a sequence without the escape symbol lies in the bits, decoding delivers the sequence and ends exactly behind its code |
| DecodingProperties.StaticTreeComplete | DWT_Huffman/source/huffman_table.h:26-42 | every inner node of the static tree has two children, and no symbol takes more than 23 bits |
| DecodingProperties.DecoderDelivers | DWT_Huffman/source/huffman.c:238-290 | for any bits the decoder delivers all symbols or returns -1 at the end of the bits, never -2, and delivers all whenever 23 bits a symbol are there |
| DecodingProperties.DecoderReadsOnly | DWT_Huffman/source/huffman.c:238-290 | what is decoded depends only on the bits read |
| DecodingProperties.DecodeInTurns | DWT_Huffman/source/main.c:398-443 | decoding `n` and then `more` symbols is decoding `n + more` at once |
| EscapeLimit.SurvivesExactlyWhen | DWT_Huffman/source/huffman.c:93-107 | a sequence encoded into a clear stretch decodes to itself if and only if 32767 is not in it |
| EscapeLimit.EscapeLost | DWT_Huffman/source/huffman.c:95-107 | the smallest failing input: 32767 alone is written as a bare escape code and comes back as 0 |
| EscapeLimit.StaticWeighed | DWT_Huffman/source/huffman_table.h:26-42 | the static table meets the weight condition of the limit theorem: the escape code is the heaviest, and each leaf lies below the ones its symbol needs |
| EscapeLimit.StaticSurvivesExactlyWhen | DWT_Huffman/source/huffman.c:93-107 | the limit for the table and the decoding tree of the program |
| ChunkedEncoder.CheckChunks | DWT_Huffman/source/main.c:295-317 | the checking pass never fails, and counts the bits of each chunk and so of the whole sequence |
| OutputRoom.CopyCovers | DWT_Huffman/source/main.c:336-338 | the bytes copied out always cover the bytes written; they exceed them by one byte unless the chunk carries over a byte end |
| OutputRoom.CopyEnds | DWT_Huffman/source/main.c:336-338 | where a copy ends, by arithmetic: behind the last byte of the stream, one byte further unless the partial bytes make up one |
| OutputRoom.ChunkAt | DWT_Huffman/source/main.c:295-300 | chunk `k` is the hundred symbols from `100 * k` on, the last what is left |
| OutputRoom.ChunksAddUp | DWT_Huffman/source/main.c:295-317 | the bits counted chunk by chunk are the bits of the whole code |
| OutputRoom.CopiesFitExactlyWhen | DWT_Huffman/source/main.c:322-352 | for any chunks and any room: every copy of the encoding pass ends within the room if and only if the counted bits leave a byte free, or fill it and neither the last copy nor the one before reaches past it |
| ChunkedEncoder.AfterCopy | DWT_Huffman/source/main.c:336-338 | the copy extends the stored stream; what it copies too much is zero |
| ChunkedEncoder.CarryOver | DWT_Huffman/source/main.c:339-341 | moving the partial byte to the front and clearing the rest leaves the buffer ready for the next chunk |
| ChunkedEncoder.EncodeChunk | DWT_Huffman/source/main.c:329-343 | one turn of the loop appends the code of one chunk to the stored stream, if its copy ends within the output |
| ChunkedEncoder.EncodeChunks | DWT_Huffman/source/main.c:321-352 | the chunked encoder stays within its output exactly if every copy of the counted chunks does, and then stores the code of the whole sequence, zero-padded to a byte |
| ChunkedEncoder.CopyOut | DWT_Huffman/source/main.c:336-338 | the copy ends within the output exactly if its start and count do, and then extends the stored stream |
| ChunkedEncoder.ChunkedIsOneShot | DWT_Huffman/source/main.c:321-352 | those are the very bytes one-shot encoding into a clear buffer gives |
| StoredBytes.StoredByte | DWT_Huffman/source/main.c:336-338 | bit `8 * i + p` of the code is under mask `p` of byte `i` of the output, and the rest of the last byte is zero |
| StoredBytes.StoredValue | DWT_Huffman/source/main.c:336-338 | so each full byte of the output is the number its eight bits of the code stand for |
| StoredBytes.KnownBytes | DWT_Huffman/source/huffman_table.h:26-42 | the symbols 5, 0, -7, -40 are stored as the bytes 8E FF FF D8 |
| SlidingDecoder.ShiftAndFill | DWT_Huffman/source/main.c:412-416 | the unread bytes move to the front and the next ones come in behind them |
| SlidingDecoder.Refill | DWT_Huffman/source/main.c:406-417 | the refilled buffer shows the stream from its base on, and the read count stands where the window ends |
| SlidingDecoder.DecodeTurn | DWT_Huffman/source/main.c:400-442 | one turn keeps the window, carries the bit offset, and continues the one-shot decoding |
| SlidingDecoder.DecodeStream | DWT_Huffman/source/main.c:387-443 | the sliding decoder never reports an error, and delivers every symbol that decoding the whole stream at once delivers, also when the stream is too short; nothing else is written when it is not |
| WaveSnap.SymbolRange | DWT_Huffman/source/dwt.c:119-131 | from 16-bit samples every symbol lies in [-6554, 6554], so the cast loses nothing and the escape symbol never occurs |
| WaveSnap.WaveError | DWT_Huffman/source/dwt.c:20-151 | for every wave of at least 32 samples, odd lengths included, every sample comes back within 997 |
| WaveSnap.BoundIsTight | DWT_Huffman/source/dwt.c:20-151 | the bound is attained: a 16-bit wave of 32 samples whose first sample is off by 997 |
| WaveSnap.BoundedExactlyWhen | DWT_Huffman/source/dwt.c:86-89 | the bound holds for all 16-bit waves of `n` samples if and only if `n < 2` or `n >= 32` |
| WaveSnap.Compress | DWT_Huffman/source/main.c:253-352 | transform, quantise, check and encode store the code of the wave's symbols if and only if the bits counted in the checking pass leave room for it |
| WaveSnap.Decompress | DWT_Huffman/source/main.c:376-458 | decode, dequantise and invert give the restored wave |
| WaveSnap.Run | DWT_Huffman/source/main.c:232-458 | with the two bytes a sample that the program allocates: the output is big enough if and only if the counted bits leave room, and then no stage fails, coding loses nothing, and from 32 samples on no sample is off by more than 997 |
| WaveSnap.LoudWaveDoesNotFit | DWT_Huffman/source/main.c:232-352 | a 16-bit wave of 32 samples whose code is 736 bits, where the program has 64 bytes |
| AvdtpMessages.WireRoundTrip | bluez-5.66/android/avdtp.c:489-539 | header fields written to the first byte are read back |
| AvdtpMessages.WireRoundTripBack | bluez-5.66/android/avdtp.c:1854-1857 | every non-empty byte string is the wire form of exactly one packet |
| AvdtpMessages.Channel.Send | bluez-5.66/android/avdtp.c:452-544 | sends the packets of the message in order; false when the channel is closed, the MTU has no room for a start packet, or a send fails, and then exactly the packets before that one are out |
| AvdtpMessages.Channel.SendLater | bluez-5.66/android/avdtp.c:513-541 | the loop sends the continue packets and the end packet |
| AvdtpMessages.Receiver.AppendPayload | bluez-5.66/android/avdtp.c:1948-1968 | the payload goes in at the size counter, which wraps at 256; fragment or success by the packets still announced |
| AvdtpMessages.Receiver.ParseData | bluez-5.66/android/avdtp.c:1845-1969 | the reassembly buffer after one packet, with every error case |
| AvdtpMessages.PacketsFit | bluez-5.66/android/avdtp.c:461-541 | no packet is larger than the outgoing MTU |
| AvdtpMessages.LaterReceived | bluez-5.66/android/avdtp.c:1891-1968 | from the start packet on every packet is taken as a fragment and the end packet completes the message, or is refused when the sender's division was exact |
| AvdtpMessages.TransferExactlyWhen | bluez-5.66/android/avdtp.c:1845-1969 | sent and reassembled, a message comes back with the same payload and labels, FRAGMENT for all packets but the last and SUCCESS for the last, if and only if it has at most 255 bytes and either fits one packet or does not fill its last one |
| AvdtpMessages.FullLastPacketIsRefused | bluez-5.66/android/avdtp.c:491-493 | six bytes at an MTU of five: one packet too many is announced and the end packet is refused |
| AvdtpMessages.LongMessageIsCut | bluez-5.66/android/avdtp.c:282 | a longer message in one packet is accepted and loses all but its length modulo 256 |
| AvdtpPackets.FirstByte | bluez-5.66/android/avdtp.c:72-115 | the first byte: message type in the two low bits, then the packet type 0 to 3, then the transaction |
| AvdtpPackets.MessagePackets | bluez-5.66/android/avdtp.c:452-544 | every packet of a message in closed form: a single one if two bytes more fit the MTU; else the start packet with the announced count, then `MTU - 1` bytes each, and the end packet with the rest |
| AvdtpPackets.PacketTaken | bluez-5.66/android/avdtp.c:1845-1969 | a packet is refused exactly when it comes out of place, in another transaction, too short, or too long for the buffer; else what the receiver holds afterwards, field by field |
| AvdtpPackets.RefusedLeaves | bluez-5.66/android/avdtp.c:1891-1930 | a refused continue or end packet leaves the message so far as it was |
| AvdtpCapabilities.CapsToList | bluez-5.66/android/avdtp.c:1109-1149 | the loop returns the parsed records, the last media codec with room for its fixed part, and whether delay reporting is there, reading nothing past `size` |
| AvdtpCapabilities.FirstRecord | bluez-5.66/android/avdtp.c:1118-1137 | a record is category, length and that many bytes, and the next one begins behind it; without room for all of it reading stops |
| AvdtpCapabilities.CodecIsLast | bluez-5.66/android/avdtp.c:1139-1142 | the codec is the last record of category 7 with at least two bytes of data, and stays what it was without one |
| AvdtpCapabilities.KnownList | bluez-5.66/android/avdtp.c:1109-1149 | the bytes 7 2 0 1 8 0 9 1: a codec, delay reporting, and a cut off record that is left |
| AvdtpCapabilities.WriteCaps | bluez-5.66/android/avdtp.c:3156-3162 | the loop writes category, length and data of each record in order |
| AvdtpCapabilities.RoundTrip | bluez-5.66/android/avdtp.c:1109-1149 | a serialised list parses to itself |
| AvdtpCapabilities.ParsedIsPrefix | bluez-5.66/android/avdtp.c:1118-1137 | on arbitrary bytes the records read serialise to a front part of them, and what remains does not begin with a whole record |
| AvdtpCapabilities.ParsedIsUnique | bluez-5.66/android/avdtp.c:1118-1137 | no other list has that property |
| AvdtpRequestSteps.SendReqHandsOver | bluez-5.66/android/avdtp.c:2348-2382 | a request waits last in its queue while another is outstanding; else it is outstanding under the next of sixteen transactions with its timer running, or freed if the send fails |
| AvdtpRequestSteps.AskedExactlyWhen | bluez-5.66/android/avdtp.c:2384-2411 | a request is refused exactly if its stream is being aborted and it is not the abort; any other gets the next identity and is handed over |
| AvdtpRequestSteps.ProcessQueueHandsOver | bluez-5.66/android/avdtp.c:2955-2977 | while nothing is outstanding the first priority request is handed over, without one the first normal one; else nothing happens |
| AvdtpRequestSteps.AnsweredHandsOver | bluez-5.66/android/avdtp.c:2081-2086 | an answered request is freed and the next one handed over |
| AvdtpRequestSteps.WithoutConcat | bluez-5.66/android/avdtp.c:747-765 | taking the requests of a stream out of a queue keeps all others in order |
| AvdtpRequestSteps.WithoutOne | bluez-5.66/android/avdtp.c:747-765 | a single request is taken out exactly if it names the stream, and then freed |
| AvdtpRequestSteps.IdsConcat | bluez-5.66/android/avdtp.c:747-765 | the freed ones are freed in the order of the queue |
| AvdtpRequestSteps.CleanupTouches | bluez-5.66/android/avdtp.c:747-765 | a clean-up takes out of the queues exactly the requests of the stream and changes nothing else but the freed ones |
| AvdtpRequestSteps.UnansweredExactlyWhen | bluez-5.66/android/avdtp.c:767-831 | the outstanding request stays if its timer is stopped, stays without its stream if it is an abort, and is given up else |
| AvdtpRequests.SendReqPlaces | bluez-5.66/android/avdtp.c:2348-2382 | sending, queueing or freeing an unsendable request puts it in exactly one more place and moves no other |
| AvdtpRequests.SendRequestConserves | bluez-5.66/android/avdtp.c:2384-2411 | each accepted request stays in exactly one place |
| AvdtpRequests.ProcessQueuePlaces | bluez-5.66/android/avdtp.c:2955-2977 | the next request moves from its queue to the channel or is freed, and no other moves |
| AvdtpRequests.AnsweredConserves | bluez-5.66/android/avdtp.c:2081-2086 | the end of an answered request conserves all others |
| AvdtpRequests.CleanupQueueConserves | bluez-5.66/android/avdtp.c:747-765 | the requests taken out of the queues are exactly the ones freed |
| AvdtpRequests.CleanupForgets | bluez-5.66/android/avdtp.c:747-765 | no queued request refers to the stream afterwards, and none refers to a new one |
| AvdtpRequests.HandleUnansweredConserves | bluez-5.66/android/avdtp.c:767-831 | giving up the outstanding request frees it once, or not at all if it is in process or an abort |
| AvdtpOrder.SubmitInOrderExactlyWhen | bluez-5.66/android/avdtp.c:2348-2411 | what is sent and what waits together stay in order under a submission if and only if it does not go out while nothing is outstanding and a request of its class, or a priority request if it is normal, waits |
| AvdtpOrder.StepInOrderExactlyWhen | bluez-5.66/android/avdtp.c:2348-2411 | the same for every step: answers, clean-ups, given up and cancelled requests never break it, whether sends work or fail |
| AvdtpOrder.NextAnswerShowsExactlyWhen | bluez-5.66/android/avdtp.c:2955-2977 | on the channel it shows with the next answer, if sends work: the order breaks if and only if the submission overtook |
| AvdtpOrder.InOrderExactlyWhen | bluez-5.66/android/avdtp.c:2955-2977 | over every run with any sends failing, what is sent and what waits are in order all the time if and only if no submission overtakes |
| AvdtpOrder.ChannelInOrderExactlyWhen | bluez-5.66/android/avdtp.c:2955-2977 | what is sent over a run is in order if and only if no answer sends a request that a submission overtook while it waited; one that is cleaned up before that does no harm |
| AvdtpOrder.SettledExactlyWhen | bluez-5.66/android/avdtp.c:2955-2977 | over every run, nothing ever waits without an outstanding request if and only if every step settles by a condition on the state before it |
| AvdtpOrder.OrderlyRuns | bluez-5.66/android/avdtp.c:2955-2977 | with any sends failing, if every step settles: first come first served in each class, no normal request overtakes a waiting priority request, and nothing waits unless a request is outstanding |
| AvdtpOrder.AnswerSettlesExactlyWhen | bluez-5.66/android/avdtp.c:2955-2977 | after an answer nothing waits without an outstanding request if and only if the next send works or at most one request waited |
| AvdtpOrder.FailedSendReorders | bluez-5.66/android/avdtp.c:2355-2381 | six events with one failed send after which a normal request overtakes a waiting priority request |
| AvdtpOrder.CancelledReorders | bluez-5.66/android/avdtp.c:2237-2337 | five events with no failed send: a request is cancelled while another waits, the abort goes out before it, and the answer sends it |
| AvdtpQueueRuns.StepQueues | bluez-5.66/android/avdtp.c:1971-2100 | whatever the event, the requests of the session go through a sequence of those queue operations and nothing else |
| AvdtpQueueRuns.RunInOrderExactlyWhen | bluez-5.66/android/avdtp.c:2348-2411 | so over every run of a session: what it sent is in order if and only if none of its queue operations sent a request that an earlier one had overtaken |
| AvdtpQueueRuns.TimeoutInOrderExactlyWhen | bluez-5.66/android/avdtp.c:2237-2337 | a request that times out breaks the order if and only if its stream is aborted, a priority request waits, and the abort goes out |
| AvdtpStates.Remove | bluez-5.66/android/avdtp.c:657-685 | taking a stream out of the list and freeing it leaves its end points and every other stream consistent |
| AvdtpStates.GiveUp | bluez-5.66/android/avdtp.c:889-896 | no request refers to the stream any more, other requests are conserved |
| AvdtpStates.Discard | bluez-5.66/android/avdtp.c:883-910 | a stream given up in the idle state leaves the list and memory; no other stream does, and the invariant holds |
| AvdtpStates.SetSepState | bluez-5.66/android/avdtp.c:833-916 | every state change keeps the invariant; the idle state removes exactly the end point's stream, any other none |
| AvdtpStates.ConnectionLost | bluez-5.66/android/avdtp.c:1002-1017 | afterwards the list is empty and the invariant holds |
| AvdtpHandlers.CancelRequest | bluez-5.66/android/avdtp.c:2237-2337 | after a request is cancelled, whether its stream is aborted or the connection lost, the invariant holds and no request is in process |
| AvdtpHandlers.ConfigurationKeepsExactlyWhen | bluez-5.66/android/avdtp.c:3111-3181 | the function does not look whether the local end point is free; the invariant survives it if and only if that is so, or one of the end points is missing |
| AvdtpHandlers.SetConfigurationCommand | bluez-5.66/android/avdtp.c:1252-1364 | a configuration the peer asks for adds one stream or leaves the list as it was; the invariant holds |
| AvdtpEffects.StateEntered | bluez-5.66/android/avdtp.c:833-916 | a state other than idle and configured: the end point has it, the start timer, `open_acp` and `starting` of its stream follow, and nothing else changes |
| AvdtpEffects.ConfiguredEntered | bluez-5.66/android/avdtp.c:862-865 | the configured state; a sink also reports its delay, exactly if stream and session have delay reporting |
| AvdtpEffects.IdleEntered | bluez-5.66/android/avdtp.c:883-910 | the idle state: what is left of the end points, the list, the records, `pending_open` and the requests, all else as before |
| AvdtpEffects.CollideMarks | bluez-5.66/android/avdtp.c:1462-1485 | the outstanding request is marked exactly when the command is the same of the four that cross, or an abort, about the same end point |
| AvdtpCommands.StartMoves | bluez-5.66/android/avdtp.c:1537-1595 | a start command: the flags of the streams it goes through, the mark on a crossed request, and the `starting` flag of the one that is refused |
| AvdtpCommands.StartStep | bluez-5.66/android/avdtp.c:1537-1595 | the end points before the first refused one, or one named twice, are streaming afterwards, all others are as they were and so is the list of streams; the answer accepts exactly if none was refused, and an outstanding request that is crossed is over and the next one handed over; if the answer cannot be sent the connection is lost |
| AvdtpCommands.SuspendMoves | bluez-5.66/android/avdtp.c:1648-1703 | the same for the flags of suspended streams |
| AvdtpCommands.SuspendStep | bluez-5.66/android/avdtp.c:1648-1703 | the same from the streaming back to the open state |
| AvdtpCommands.CloseStep | bluez-5.66/android/avdtp.c:1597-1646 | a close is taken exactly in the open and streaming states without a refusal: the end point is closing, with a timer; else nothing but the answer |
| AvdtpStreamCommands.OpenStep | bluez-5.66/android/avdtp.c:1487-1535 | an open is taken exactly in the configured state without a refusal: the stream waits for its transport, with a timer; the state stays |
| AvdtpStreamCommands.AbortStep | bluez-5.66/android/avdtp.c:1705-1733 | an abort of a stream is answered and its end point aborting; one of anything else is not answered; without the answer the connection is lost |
| AvdtpStreamCommands.ConfigureStep | bluez-5.66/android/avdtp.c:1252-1364 | a configuration is taken exactly for a free end point, well formed and not refused; the new stream, both end points and the version, field by field, in all cases, failed sends included |
| AvdtpStreamCommands.OtherStep | bluez-5.66/android/avdtp.c:1971-2034 | other commands are answered once and change no stream |
| AvdtpStreamCommands.TooShortStep | bluez-5.66/android/avdtp.c:2017-2034 | a command that is too short costs the connection |
| AvdtpCalls.OpenAsks | bluez-5.66/android/avdtp.c:3183-3198 | a stream that is at most configured and not being aborted is asked to open, and nothing else happens |
| AvdtpCalls.StartAsks | bluez-5.66/android/avdtp.c:3215-3260 | an open stream: put off if the peer opened it, refused if it is closing, starting or aborting, else asked for and marked |
| AvdtpCalls.SuspendAsks | bluez-5.66/android/avdtp.c:3294-3309 | a stream past open that is neither closing nor being aborted is asked to be suspended |
| AvdtpCalls.CloseAsks | bluez-5.66/android/avdtp.c:3262-3292 | a stream that is not open yet, or at once one whose request is outstanding, is aborted; any other is asked to be closed, once |
| AvdtpCalls.AbortAsks | bluez-5.66/android/avdtp.c:3311-3335 | the own outstanding request is cancelled as if it had timed out; else the abort is asked for, before all others, and marked |
| AvdtpCalls.DelayAsks | bluez-5.66/android/avdtp.c:3337-3360 | the delay is reported exactly of a configured or streaming stream with delay reporting, to a peer of version 1.3 |
| AvdtpCalls.GetConfigurationAsks | bluez-5.66/android/avdtp.c:3088-3097 | the configuration of a stream that is not being aborted is asked for |
| AvdtpCalls.DiscoverAsks | bluez-5.66/android/avdtp.c:3018-3042 | the end points are asked for exactly if none is known and no discovery runs |
| AvdtpCalls.SetConfigurationAsks | bluez-5.66/android/avdtp.c:3111-3181 | the new stream is in the list, held by both end points, exactly if its request is accepted; else only the identity is used up and the remote end point free |
| AvdtpLosses.TransportUpStep | bluez-5.66/android/avdtp.c:2913-2931 | the awaited transport opens its end point, ends the wait and the timer; any other does nothing |
| AvdtpLosses.TransportDownStep | bluez-5.66/android/avdtp.c:687-706 | the end of a transport gives its stream up, unless it is being aborted |
| AvdtpLosses.OpenTimeoutStep | bluez-5.66/android/avdtp.c:586-599 | no transport is awaited any more, and the stream is aborted as if by a call |
| AvdtpLosses.CloseTimeoutStep | bluez-5.66/android/avdtp.c:573-584 | only the timer flag is cleared |
| AvdtpLosses.StartTimeoutStep | bluez-5.66/android/avdtp.c:3200-3213 | the start that was put off is made as if by a call |
| AvdtpLosses.LostLeaves | bluez-5.66/android/avdtp.c:1002-1017 | what the loss of a connection leaves: every end point free and idle with its kind unchanged, no record of a listed stream, no request about one but an answered one and an abort without its stream, nothing sent |
| AvdtpLosses.FoundIsFirst | bluez-5.66/android/avdtp.c:628-641 | a SEID stands for the first stream of the list with that remote end point |
| AvdtpLosses.CancelStep | bluez-5.66/android/avdtp.c:2237-2337 | a cancelled request is freed, its stream marked as aborting and not as starting or closing, and the abort asked for; the connection is lost for configurations, capabilities and aborts and if the abort cannot be sent |
| AvdtpLosses.CancelLoses | bluez-5.66/android/avdtp.c:2237-2337 | and without a stream |
| AvdtpAnswers.StrayAnswer | bluez-5.66/android/avdtp.c:2036-2049 | an answer with another transaction or signal changes nothing |
| AvdtpAnswers.AnswerEnds | bluez-5.66/android/avdtp.c:2078-2098 | an answer that is processed frees its request and hands the next one over |
| AvdtpAnswers.AnswerBreaks | bluez-5.66/android/avdtp.c:2051-2076 | a rejected abort, a rejection that is too short and a list of capabilities that is too short lose the connection; the request stays |
| AvdtpAnswers.AcceptStep | bluez-5.66/android/avdtp.c:2618-2687 | what the acceptance of each kind of request does to its stream, field by field, and that it does nothing else |
| AvdtpAnswers.CapabilitiesStep | bluez-5.66/android/avdtp.c:2468-2505 | the capabilities of a known end point say whether it has delay reporting |
| AvdtpAnswers.RejectStep | bluez-5.66/android/avdtp.c:2732-2848 | a rejected start or close is not under way any more; other rejections change no stream |
| AvdtpAnswers.FoundOne | bluez-5.66/android/avdtp.c:2413-2466 | an end point found is passed over exactly if it is unknown, in use and without a stream here; else recorded with its stream, and asked for its capabilities |
| AvdtpAnswers.FoundInOrder | bluez-5.66/android/avdtp.c:2413-2466 | the end points found are taken one after the other |
| AvdtpRuns.CommandRead | bluez-5.66/android/avdtp.c:2017-2034 | after any command, handled, colliding or not handled, the invariant holds and no request is in process |
| AvdtpRuns.AnswerRead | bluez-5.66/android/avdtp.c:2036-2098 | an answer that matches ends its request and sends the next one, or breaks the connection exactly for the listed answers |
| AvdtpRuns.Step | bluez-5.66/android/avdtp.c:1971-2100 | every event keeps the invariant, and leaves a request in process exactly when it is an answer that breaks the connection |
| AvdtpRuns.IdleForgets | bluez-5.66/android/avdtp.c:883-910 | after the idle state nothing refers to the freed stream: not the outstanding request, the queues, `pending_open`, or any local or remote end point |
| AvdtpRuns.RunsKeepOthersLive | bluez-5.66/android/avdtp.c:833-916 | over every run, every stream reference but that of the outstanding request is to a stream in the list, a SEP that is not idle has a stream, and every accepted request is in exactly one place |
| AvdtpRuns.RunsLiveExactlyWhen | bluez-5.66/android/avdtp.c:833-916 | over every run: all stream references are to streams in the list if and only if no answer of the run breaks the connection over a request that names a stream |
| AvdtpRuns.StaysStranded | bluez-5.66/android/avdtp.c:774-776 | once the outstanding request refers to a freed stream it does so for good: it is never answered or given up, and no stream gets that identity again |
| AvdtpRuns.BrokenOffRefersToFreed | bluez-5.66/android/avdtp.c:774-776 | when an answer breaks the connection all streams are freed and the request stays; a reference to a freed stream is left if and only if that request had a stream |
| AvdtpRuns.DanglingIsReachable | bluez-5.66/android/avdtp.c:2051-2076 | two events reach that: a configuration request and a rejection that is too short |
| AvdtpTimerFlags.ArmsExactlyWhen | bluez-5.66/android/avdtp.c:1524-1528 | whatever happens, a stream has a timer afterwards that it did not have before only if the event is an open or close command that arms it, and such a command does |
| AvdtpTimers.TurnKnownExactlyWhen | bluez-5.66/android/avdtp.c:1524-1528 | from a state in which records name all armed timers, a turn leaves one unnamed if and only if a command arms a timer for a stream that has one |
| AvdtpTimers.SafeExactlyWhen | bluez-5.66/android/avdtp.c:657-685 | while the peer can still be lost: whatever comes next leaves every armed timer its stream, if and only if records name all armed timers |
| AvdtpTimers.SafeExactlyWhenNeverArmedTwice | bluez-5.66/android/avdtp.c:1637-1639 | over every run, stale timers going off included: no moment is one at which the next turn could free a stream under an armed timer, if and only if no command armed a timer for a stream that had one |
| AvdtpTimers.LostForGood | bluez-5.66/android/avdtp.c:657-685 | a timer that is left without its stream stays so over every run |
| AvdtpTimers.DoubleOpenLosesTimer | bluez-5.66/android/avdtp.c:1524-1528 | four events reach the other case: the peer configures a stream, asks twice to open it, and the connection breaks |
| AvdtpLifeCycle.Configures | bluez-5.66/android/avdtp.c:2507-2521 | asking for a configuration and its acceptance: the session has one more stream, its end point configured, after the delay report of a sink is accepted too |
| AvdtpLifeCycle.Opens | bluez-5.66/android/avdtp.c:2531-2543 | opening, its acceptance and the transport: the end point is open and no transport is awaited |
| AvdtpLifeCycle.Plays | bluez-5.66/android/avdtp.c:2545-2587 | started and suspended any number of times, each accepted, the stream is open again |
| AvdtpLifeCycle.LeavesNothing | bluez-5.66/android/avdtp.c:657-916 | whatever other streams there are, the whole accepted life of a stream can happen and ends with streams, records and end points as they were, the remote end point free and no transport awaited |
| AvdtpSession.Avdtp.SendReq | bluez-5.66/android/avdtp.c:2348-2382 | queues behind an outstanding request or sends; a request that cannot be sent is freed |
| AvdtpSession.Avdtp.SendRequest | bluez-5.66/android/avdtp.c:2384-2411 | refuses requests for an aborting stream except the abort, accepts all others |
| AvdtpSession.Avdtp.ProcessQueue | bluez-5.66/android/avdtp.c:2955-2977 | sends the first priority request, or else the first normal one, if none is outstanding |
| AvdtpSession.Avdtp.CleanupQueue | bluez-5.66/android/avdtp.c:747-765 | the repeated search and removal takes out exactly the requests of the stream, in both queues |
| AvdtpSession.Avdtp.HandleUnansweredReq | bluez-5.66/android/avdtp.c:767-831 | leaves a request in process alone, makes an abort forget its stream, frees any other |
| AvdtpSession.Avdtp.StreamFree | bluez-5.66/android/avdtp.c:657-685 | frees the record and clears what its end points know of it |
| AvdtpSession.Avdtp.SepSetState | bluez-5.66/android/avdtp.c:833-916 | the field updates are the state change whose invariant is proved |
| AvdtpSession.Avdtp.ConnectionLost | bluez-5.66/android/avdtp.c:1002-1017 | the loop over a list that shrinks under it releases every stream |
| AvdtpSession.Avdtp.CancelRequest | bluez-5.66/android/avdtp.c:2237-2337 | the field updates are the cancelling whose invariant is proved |
| AvdtpSession.Avdtp.AvdtpSetConfiguration | bluez-5.66/android/avdtp.c:3111-3181 | new stream, request, and either both kept or both dropped |
| AvdtpSession.Avdtp.AvdtpOpen | bluez-5.66/android/avdtp.c:3183-3198 | asks to open a stream of the list that is at most configured |
| AvdtpSession.Avdtp.AvdtpStart | bluez-5.66/android/avdtp.c:3215-3260 | waits, refuses or asks to start, by the flags of the stream |
| AvdtpSession.Avdtp.AvdtpClose | bluez-5.66/android/avdtp.c:3262-3292 | closes, or aborts a stream that is not open yet or whose request is outstanding |
| AvdtpSession.Avdtp.AvdtpSuspend | bluez-5.66/android/avdtp.c:3294-3309 | asks to suspend a stream that is past open and not closing |
| AvdtpSession.Avdtp.AvdtpAbort | bluez-5.66/android/avdtp.c:3311-3335 | cancels the stream's own outstanding request or asks to abort |
| AvdtpSession.Avdtp.DelayReport | bluez-5.66/android/avdtp.c:3337-3360 | asks only for a configured or streaming stream with delay reporting |
| AvdtpSession.Avdtp.SetconfCmd | bluez-5.66/android/avdtp.c:1281-1364 | every refusal and acceptance of the peer's configuration, with failed sends |
| AvdtpSession.Avdtp.OpenCmd | bluez-5.66/android/avdtp.c:1487-1535 | accepts an open in the configured state and waits for the transport |
| AvdtpSession.Avdtp.StartCmd | bluez-5.66/android/avdtp.c:1537-1595 | the loop starts the end points in order up to the first refusal, then answers once: those before it are streaming, all others as they were, the answer accepts exactly if none was refused |
| AvdtpSession.Avdtp.SuspendCmd | bluez-5.66/android/avdtp.c:1648-1703 | the loop suspends the end points in order up to the first refusal, then answers once: those before it are open, all others as they were, the answer accepts exactly if none was refused |
| AvdtpSession.Avdtp.CloseCmd | bluez-5.66/android/avdtp.c:1597-1646 | accepts a close in the open and streaming states |
| AvdtpSession.Avdtp.AbortCmd | bluez-5.66/android/avdtp.c:1705-1733 | answers an abort of a stream and enters the aborting state if the answer went out |
| AvdtpSession.Avdtp.CheckCollision | bluez-5.66/android/avdtp.c:1462-1485 | marks the outstanding request when the peer asks for the same thing of the same end point, or aborts it |
| AvdtpSession.Avdtp.DiscoverResp | bluez-5.66/android/avdtp.c:2413-2466 | the loop records each end point found and asks for its capabilities |
| AvdtpSession.Avdtp.ParseResp | bluez-5.66/android/avdtp.c:2618-2687 | dispatch of an accepted answer |
| AvdtpSession.Avdtp.ParseRej | bluez-5.66/android/avdtp.c:2732-2848 | dispatch of a rejection |
| AvdtpSession.Avdtp.CommandCb | bluez-5.66/android/avdtp.c:2017-2034 | a command from the channel |
| AvdtpSession.Avdtp.AnswerCb | bluez-5.66/android/avdtp.c:2036-2098 | an answer from the channel |
| AvdtpSession.Avdtp.StreamSetTransport | bluez-5.66/android/avdtp.c:2913-2931 | only the stream that is being opened takes the transport |
| AvdtpSession.Avdtp.TransportCb | bluez-5.66/android/avdtp.c:687-706 | the end of a transport frees the stream unless it is being aborted |
| AvdtpSession.Avdtp.AvdtpDiscover | bluez-5.66/android/avdtp.c:3018-3042 | asks for the end points unless they are known or being asked for |
| AvdtpSession.Avdtp.AvdtpGetConfiguration | bluez-5.66/android/avdtp.c:3088-3097 | asks for the configuration of a stream |
| AvdtpSession.Avdtp.StreamCloseTimeout | bluez-5.66/android/avdtp.c:573-584 | the record names no timer any more |
| AvdtpSession.Avdtp.Handle | bluez-5.66/android/avdtp.c:1971-2100 | one event: the new state is the step the run theorems are about |
| AvdtpSession.Avdtp.Serve | bluez-5.66/android/avdtp.c:1971-2100 | a run of events: references are live exactly as the run theorems say |
| AvdtpSession.Avdtp.StreamOpenTimeout | bluez-5.66/android/avdtp.c:586-599 | nobody waits for the transport any more and the stream is aborted |
| AvdtpSession.Avdtp.StartTimeoutCb | bluez-5.66/android/avdtp.c:3200-3213 | the delayed start |
| AvrcpContinuation.Avrcp.ContinuingNew | bluez-5.66/android/avrcp-lib.c:1039-1078 | stores the rest of the entry that was cut and all later entries, joined |
| AvrcpContinuation.Avrcp.FillWhole | bluez-5.66/android/avrcp-lib.c:1108-1117 | takes whole entries up to the first that does not fit |
| AvrcpContinuation.Avrcp.AvrcpSendInternal | bluez-5.66/android/avrcp-lib.c:1080-1142 | drops an older remainder, sends what fits under the right packet type and stores the rest |
| AvrcpContinuation.Avrcp.SendMore | bluez-5.66/android/avrcp-lib.c:1144-1174 | true exactly if one PDU is named and something of it is stored; then exactly one more packet is out, of that PDU; else nothing is sent and the remainder stays |
| AvrcpContinuation.Avrcp.StopContinuing | bluez-5.66/android/avrcp-lib.c:1176-1192 | true exactly if one PDU is named and something is stored; then that is dropped and an empty packet of PDU 0x41 is out; else nothing happens |
| AvrcpContinuation.CutJoins | bluez-5.66/android/avrcp-lib.c:1108-1133 | whatever the entries, the joined first bytes go out and the others are kept, none lost or doubled |
| AvrcpContinuation.CutSetsAllExactlyWhen | bluez-5.66/android/avrcp-lib.c:1133 | all entries of the vector that is sent are set if and only if all but the last fit |
| AvrcpContinuation.FragmentsJoin | bluez-5.66/android/avrcp-lib.c:1119-1128 | the fragments of a response join to it, none is larger than the MTU leaves room for, and all but the last are full |
| AvrcpContinuation.ServedInFragments | bluez-5.66/android/avrcp-lib.c:1080-1174 | a response and `n` requests for more emit exactly the first `n + 1` fragments as SINGLE, or START CONTINUING* END, each complete; nothing is stored after the last |
| AvrcpContinuation.ResponseSends | bluez-5.66/android/avrcp-lib.c:1080-1142 | whatever the entries: PDU, type, joined bytes of the packet, and what is stored |
| AvrcpContinuation.MoreSends | bluez-5.66/android/avrcp-lib.c:1144-1174 | a request for more is met exactly if it names the PDU that is stored, and then by its next part |
| AvrcpContinuation.StopSends | bluez-5.66/android/avrcp-lib.c:1176-1192 | an abort is answered exactly if something is stored, which is dropped |
| AvrcpContinuation.MoreSendsExactlyWhen | bluez-5.66/android/avrcp-lib.c:1144-1174 | over every run: a request for more sends a packet exactly if it names the PDU of the last packet and that is unfinished, and then continues it |
| AvrcpContinuation.StopSendsExactlyWhen | bluez-5.66/android/avrcp-lib.c:1176-1192 | over every run: an abort is answered exactly if the last packet is unfinished |
| AvrcpContinuation.RunsAreLegal | bluez-5.66/android/avrcp-lib.c:1080-1192 | over every run of responses, requests and aborts a continuing or end packet comes right behind an unfinished packet of the same PDU, and something is stored exactly while the last packet is unfinished |
| DeviceBonds.Cache | bluez-5.66/android/bluetooth.c:405-429 | each device stays in exactly one list, and the cache never outgrows 300 or its present length |
| DeviceBonds.CacheIsRecentFirst | bluez-5.66/android/bluetooth.c:405-429 | the device goes to the front and the others keep their order; only a full cache gives up a device, its last |
| DeviceBonds.Move | bluez-5.66/android/bluetooth.c:772-781 | the list a device moves to: bonded exactly when it stays paired on some bearer |
| DeviceBonds.UpdateBearer | bluez-5.66/android/bluetooth.c:757-835 | an update keeps lists and flags consistent and touches no other device's flags; what it does to the device's own is stated in the next three rows |
| DeviceBonds.BredrFlags | bluez-5.66/android/bluetooth.c:757-792 | after a BR/EDR update: unless a paired bearer refuses it, paired as it says, and bonded exactly if paired and bonded before or now; `pairing` is the new one in any case; the LE flags stay |
| DeviceBonds.LeFlags | bluez-5.66/android/bluetooth.c:794-835 | the same for the LE bearer |
| DeviceBonds.UpdatedLists | bluez-5.66/android/bluetooth.c:772-781 | a device with its first paired bearer moves to the front of the bonded list, one that loses its last to the front of the cache, and no other changes lists |
| DeviceBonds.BondedExactlyWhen | bluez-5.66/android/bluetooth.c:783-788 | over every run: a bearer is bonded exactly if it has been paired without a break since it was loaded as bonded, or since an update that took effect said so |
| DeviceBonds.UpdateReports | bluez-5.66/android/bluetooth.c:852-897 | what an update reports, by the flags before and after it |
| DeviceBonds.LastToldIsTrue | bluez-5.66/android/bluetooth.c:837-850 | over every run: what was told last of a device is a bonding exactly while it is pairing, and else bonded exactly if either bearer is paired |
| DeviceBonds.SightingCaches | bluez-5.66/android/bluetooth.c:1954-1955 | a device that is seen goes to the front of the cache unless a bearer is paired |
| DeviceBonds.NewSightingCreates | bluez-5.66/android/bluetooth.c:461-474 | a new device has no flag set and is at the front of the cache |
| DeviceBonds.ReportedIsSmooth | bluez-5.66/android/bluetooth.c:852-871 | one change is told in steps that each enter or leave a bonding |
| DeviceBonds.UpdateIsTold | bluez-5.66/android/bluetooth.c:881-897 | an update keeps what was told of every device smooth and ending with its bond |
| DeviceBonds.RunsKeepBonds | bluez-5.66/android/bluetooth.c:757-897 | over every run each device is in exactly one list, in the bonded one exactly when paired on some bearer, bonded flags imply paired flags, the cache never exceeds max(300, number loaded), and the bond states told of a device never step directly between none and bonded and end with its bond |
| DeviceLists.Bluetooth.CacheDevice | bluez-5.66/android/bluetooth.c:405-429 | the list operations are the caching proved above |
| DeviceLists.Bluetooth.UpdateBredrState | bluez-5.66/android/bluetooth.c:757-792 | the BR/EDR bearer, with its early returns: its flags, and those of the other bearer, by the guards of the source |
| DeviceLists.Bluetooth.UpdateLeState | bluez-5.66/android/bluetooth.c:794-835 | the LE bearer, with its early returns: its flags, and those of the other bearer, by the guards of the source |
| DeviceLists.Bluetooth.UpdateBondState | bluez-5.66/android/bluetooth.c:852-871 | the reports of one change |
| DeviceLists.Bluetooth.UpdateDeviceState | bluez-5.66/android/bluetooth.c:881-897 | flags, lists and reports of one update |
| DeviceLists.Bluetooth.NewDevice | bluez-5.66/android/bluetooth.c:461-474 | a device not found is created and cached |
| DeviceLists.Bluetooth.UpdateFoundDevice | bluez-5.66/android/bluetooth.c:1954-1955 | an unpaired device that is seen goes to the front of the cache |

## Left out

- Floating point, the 32-bit widths of `n` and of bit counts, and shifts by 32 or more levels: integers are unbounded.
- `printf`, the RMSE, the symbol statistics and the test data of `main.c`.
- HuffmanCodec.HuffmanEncodeStatic: takes `ret` as non-NULL, so an encoder that goes on after a failed write is not
  modelled.
- HuffmanNodes.BuildDecodingTree: allocation does not fail, and `free_huffman_tree` is not modelled.
- SlidingDecoder.DecodeStream: does not say which old bytes of the buffer are decoded behind a stream that is too short.
- AvdtpMessages.Channel.Send: a send either works or fails as a whole; sockets and `errno` are not modelled.
- AvdtpCapabilities.CapsToList: a record is a value, not an allocation shared with the codec pointer.
- The byte order of the bit-fields: a packet is its header fields and the bytes behind; `AvdtpMessages.WireRoundTrip`
  ties them to bytes for the little-endian layout.
- Upper-layer callbacks: they do not call back into the session, confirmation callbacks are registered as `a2dp.c`
  does, and a configuration callback answers before its indication returns.
- What the upper layer refuses is part of the event: for a start or suspend command, a set of end points.
- AvdtpRuns.Step: lets the timers of a stream go off whenever the stream is there; `AvdtpTimers` says which are armed.
- AvdtpHandlers.SetConfigurationCommand: takes of the capability list that it is malformed and that it asks for delay
  reporting; the capabilities themselves are not kept, and neither are those `avdtp_set_configuration` sends.
- AvdtpSession.Avdtp.SetconfCmd: the same.
- AvdtpStreamCommands.ConfigureStep: the same.
- AvdtpStates.SetSepState: leaves out the state callbacks, and `avdtp_shutdown` after the last stream.
- AvdtpSession.Avdtp.SepSetState: the same.
- AvdtpStates.ConnectionLost: leaves out the discovery and disconnect callbacks.
- AvdtpSession.Avdtp.ConnectionLost: the same.
- AvdtpSession.Avdtp.CancelRequest: leaves out the error code it returns.
- AvdtpSession.Avdtp.AvdtpSetConfiguration: leaves out the capabilities it sends and the error code it returns.
- AvdtpSession.Avdtp.AvdtpDiscover: takes as a flag that a discovery is under way, and leaves out the error code.
- AvdtpSession.Avdtp.AvdtpGetConfiguration: leaves out the error code it returns.
- AvdtpSession.Avdtp.AvdtpOpen: leaves out the error code it returns.
- AvdtpSession.Avdtp.AvdtpStart: leaves out the error code it returns.
- AvdtpSession.Avdtp.AvdtpClose: leaves out the error code it returns.
- AvdtpSession.Avdtp.AvdtpSuspend: leaves out the error code it returns.
- AvdtpSession.Avdtp.AvdtpAbort: leaves out the error code it returns.
- AvdtpSession.Avdtp.DelayReport: leaves out the stored delay value and the error code.
- AvdtpSession.Avdtp.DiscoverResp: leaves out the types of end points and the callback at the end of a discovery.
- AvdtpSession.Avdtp.ParseResp: leaves out that callback too.
- AvdtpSession.Avdtp.ParseRej: leaves out that callback too.
- AvdtpTimers.SafeExactlyWhen: is about the timers for opening and closing a transport; the start timer is armed at
  most once and stopped with its stream.
- AvdtpLifeCycle.LeavesNothing: is for a peer that accepts every request before the next call, and sends that work.
- Remote end points are kept by SEID; the list in C only gains an end point whose SEID is not in it.
- `avdtp_unref` and freeing a session, local end points shared by several sessions, reference counts (the owner keeps
  its reference), and I/O channels of streams.
- Commands of the peer that only read (discover, capabilities, configuration, delay values): one answer each, no state.
- AvrcpContinuation.ServedInFragments: is for responses whose entries but the last fit whole, as otherwise entries of
  the vector are left unset; the MTU is a parameter above 7, and sends work.
- DeviceBonds.UpdateBearer: does not model signing keys and the files devices are stored in; which device an event is
  about (`find_device`) is part of the event.
- AVCTP, A2DP codecs, AVRCP field parsers, HAL and management commands, SDP, D-Bus and Modbus: foreign interfaces or
  facts of one branch.
