# Verified model of the weather pipeline

A Dafny model of the parts of the weather system that hold real state machines, codecs and
arithmetic, with proofs of what they promise. `dafny verify dfyconfig.toml` checks everything.

| component | source | modules |
|---|---|---|
| PNG writer, against decoders of RFC 2083, RFC 1950 and RFC 1951 | `services/map_query_api/main.cpp` | `Bytes`, `ShiftRegister`, `Crc32`, `Zlib`, `Png` |
| heat-map rasteriser | `services/map_query_api/main.cpp` | `HeatTile`, `HeatPicture`, `HeatMeaning` |
| base64, query strings, SQL and shell quoting, against RFC 4648, RFC 3986 and lexers of the quoted text | `services/map_query_api/main.cpp`, `common/timescale/*.hpp` | `Chunks`, `Base64`, `Query`, `Escaping` |
| lock-free ring buffer, as a class and as a two-thread step machine | `common/rt_safe/LocklessRingBuffer.hpp` | `RingBuffer`, `Spsc` |
| real-time comparator: three threads over two rings, and the line splitter in front | `services/personal_comparator/main.cpp` | `Comparator`, `LineSplitter` |
| region-partitioned asynchronous writer | `common/timescale/AsyncQueueWriter.hpp` | `AsyncQueue`, `AsyncFairness`, `AsyncRuns`, `AsyncStarvation`, `Shutdown` |
| batch writer: duplicate cache, one-pass aggregation, upserts, outbox | `common/timescale/TimescaleBatchWriter.hpp` | `Weather`, `DedupCache`, `Hazards`, `Grouping`, `Aggregation`, `RowMeaning`, `MergeAlgebra`, `Upsert`, `BatchSql`, `LastRows`, `Histories`, `Slots`, `Outbox`, `BatchWriterRuns`, `BatchWriter` |
| Pearson correlation, linear regression | `apps/weather_dashboard/app.js` | `Vectors`, `Forms`, `Statistics` |
| token bucket | `common/rt_safe/FlowController.hpp` | `FlowControl` |

`Wrappers` holds `Option`, `Numbers` the machine word and small functions on numbers, `Sequences` facts about
concatenation and slicing.

## How the model is built

- Code that updates fields is a class (`LocklessRingBuffer`, `Connection`, `AsyncQueueWriter`, `Intake`,
  `OutboxWriter`, `FlowController`); code that fills buffers in loops is a method with its loops. Each is
  proved against a specification function or relation, and the promises are lemmas about that.
- What runs concurrently is a step machine. `Spsc` takes one step per atomic access; a load of the other
  thread's index may return any value since the last one seen, and a slot being written may hold anything.
  `Comparator` composes two such machines through the comparator thread.
- Specifications come from the standards and not from the loops: the CRC is the bitwise shift register,
  Adler-32 the two sums, the image decoder checks signature, lengths, CRCs, zlib header, stored blocks
  with their complements, checksum and filter bytes.
- Octets and counters are numbers with their ranges; shifts and masks are written as divisions and
  remainders, except in the CRC register, which is a bit vector. Casts that cut a value and unsigned
  products that wrap around are explicit (`Truncate32`, `FlowControl.NewTokens`, `Base64.DecodeFour`).
- Doubles are reals; a measurement that may be NaN is an option. `sqrt` and `exp` are parameters known only
  by `sqrt(x) * sqrt(x) == x` and positivity; what the weights mean also needs `exp` to grow from `exp(0) == 1`.
- Parameters stand for what the code gets from outside: whether the database took a batch, whether the
  answer arrived, whether the outbox file opened, clock readings, the hour of a timestamp, whether the
  batch writer accepts a message.

## Where the code does not do what its text says

- Lines 347-362 of `common/timescale/TimescaleBatchWriter.hpp` are garbled. The model takes their evident
  meaning: one raw row for every valid envelope.
- The round-robin comment "to prevent starvation" holds only while there are no more waiting regions than
  the batch size, because every batch starts again at the first region (`AsyncFairness.NobodyStarvesIff`,
  `AsyncStarvation.WaitingRegionIsPassedOver`).
- The ring buffer's power-of-two test also accepts zero (`RingBuffer.ZeroIsAcceptedAndNeverFull`).
- A city's stored count and averages are those of the batch applied last, so the count is the total exactly
  when no two batches had samples of the city and minute (`Histories.CountIsTotalIff`,
  `Histories.CountCanMissSamples`). A tile's count is not even its batch's total when the batch has two rows for
  the tile's slot (`LastRows.TileCountIsBatchTotalIff`, `LastRows.TileCountCanMissSamples`). A late replay of the
  outbox sets all such columns of all three tables back to the last rows of the outbox
  (`Upsert.LateReplayRollsBack`). Raw rows and the minimum and maximum columns do not have this problem
  (`Outbox.BatchingDoesNotMatter`, `Upsert.LateReplay`).
- The batch writer acknowledges a recent duplicate also when the first copy was in a batch that the database and
  the outbox file both refused, so a retry is acknowledged and never stored
  (`BatchWriterRuns.AcknowledgedAndLost`); when an acknowledged id is pending or recorded is stated by
  `BatchWriter.AcknowledgedIsKeptIff`.
- The heat map drops places more than 80 pixels off the tile although a point reaches 84 pixels
  (`HeatPicture.MarginCutsOff`). Every pixel has the weight of all rows exactly when no dropped row reaches the
  pixel of the tile nearest to it (`HeatPicture.MarginIsHarmlessIff`), and then the picture is that of all rows
  too; it may be so otherwise (`HeatPicture.LostRowMayNotShow`).
- Every refill drops what is due beyond whole tokens, so polling slows the bucket down; for a caller of `acquire`
  this costs at most about as much again as the wait itself (`FlowControl.WaitIsBounded`).
- A picture without rows or columns is written as a file that a decoder rejects (`Png.DecodeEncoded`).
- `maxRetries` of the asynchronous writer is never read.
- The asynchronous writer promises a final drain, but its batch-writer thread may have left its loop by then: what
  is handed over afterwards is counted as processed and never flushed (`Shutdown.MessageIsLeftBehind`). Nothing is
  left behind exactly when nothing was queued after that thread left its loop (`Shutdown.NothingIsLeftIff`).
- The slope of a regression over equal xs is zero divided by zero (`Statistics.ZeroByZero`); the model
  returns `None` there.

## Model

| member | source | states |
|---|---|---|
| Bytes.BigEndianRoundTrip | services/map_query_api/main.cpp:265-270 | the four octets the encoder appends for a number denote that number in network byte order (RFC 2083 section 2.1) |
| Crc32.MakeTable | services/map_query_api/main.cpp:273-288 | every table entry is the shift register after eight steps on its index |
| Crc32.LookupStep | services/map_query_api/main.cpp:292-293 | one table look-up has the effect of feeding eight bits, one by one, into the register |
| Crc32.Compute | services/map_query_api/main.cpp:272-296 | the table-driven loop returns the bit-by-bit CRC of RFC 2083 section 3.4, for every octet string |
| Crc32.BurstIsDetected | services/map_query_api/main.cpp:290-295 | changing one to four adjacent octets of any message, and nothing else, always changes its CRC |
| Crc32.CrcOfIend | services/map_query_api/main.cpp:272-296 | a known answer: the CRC of the four octets of IEND is ae426082 |
| Zlib.ComputeAdler | services/map_query_api/main.cpp:298-307 | the running sums return the Adler-32 defined by RFC 1950 over the whole string: one and the octets, and the sum of that over all prefixes, both modulo 65521 |
| Zlib.AdlerOfAbc | services/map_query_api/main.cpp:298-307 | a known answer: the checksum of "abc" is 024d0127 |
| Zlib.Compress | services/map_query_api/main.cpp:342-359 | the loop writes the zlib header, stored blocks of at most 65535 octets with the final flag on the last one only, and the checksum |
| Zlib.InflateBlocks | services/map_query_api/main.cpp:345-358 | an inflater of RFC 1951 section 3.2.4 reads the blocks back to exactly their data and stops where they end |
| Zlib.DecompressCompressed | services/map_query_api/main.cpp:342-359 | a zlib decoder accepts the stream, which starts with the octets 78 01, and returns the data if and only if there is any data |
| Zlib.StoredLength | services/map_query_api/main.cpp:345-358 | the stored blocks take the octets themselves and five more for every 65535 of them or part of it |
| Png.AppendChunk | services/map_query_api/main.cpp:309-319 | a chunk is its length, type, data and the CRC of type and data |
| Png.ReadWritten | services/map_query_api/main.cpp:309-319 | a reader of chunks accepts a written chunk and returns its type and data, for every length the format allows |
| Png.DamageIsRejected | services/map_query_api/main.cpp:309-319 | a chunk whose type and data, taken together, have up to four adjacent octets changed is rejected |
| Png.CoveredIsChunk | services/map_query_api/main.cpp:309-319 | those octets with their length and CRC are the chunk as written |
| Png.FilterRows | services/map_query_api/main.cpp:334-340 | the rows loop writes every scanline after a filter octet of zero |
| Png.UnfilterScanlines | services/map_query_api/main.cpp:334-340 | a reader of filtered scanlines gets the pixels back |
| Png.EncodePngRgba | services/map_query_api/main.cpp:264-364 | for every size and buffer, the file written decodes to the same width, height and pixels, or is rejected when the picture is empty or its data too long |
| Png.DecodeEncoded | services/map_query_api/main.cpp:264-364 | the decoder's verdict on an encoded picture, both ways |
| Png.FileLayout | services/map_query_api/main.cpp:321-363 | the literal octets of every file: signature, length and type of the header chunk, width and height in network order, RGBA of eight bits, the type of the data chunk at octet 37, and the end chunk with its CRC |
| HeatTile.HeatIntensity | services/map_query_api/main.cpp:236-254 | every layer's intensity is between 0.08 and 1 |
| HeatTile.IntensityMeaning | services/map_query_api/main.cpp:236-254 | for each layer, the values where it is 1, the values where it is 0.08, and that it grows strictly between them |
| HeatTile.IntensityIsLinear | services/map_query_api/main.cpp:236-254 | between those it is the share of the layer's way: of 20 for visibility, 50 for precipitation and pressure, 100 otherwise |
| HeatTile.WindowIsWide | services/map_query_api/main.cpp:415-427 | the clipped window of the loops contains every pixel of the tile within the radius |
| HeatTile.AddPoint | services/map_query_api/main.cpp:415-434 | the loops over the window add the point's weight, of which HeatMeaning.WeightMeaning says what it is, and its heat at every pixel of the tile as if all pixels had been visited |
| HeatPicture.Means | services/map_query_api/main.cpp:437-444 | the weighted mean of every pixel, zero without weight, and the largest of them |
| HeatPicture.Paint | services/map_query_api/main.cpp:450-469 | every pixel's four octets are the colour of its scaled mean, untouched ones stay transparent |
| HeatPicture.GatherPoints | services/map_query_api/main.cpp:389-404 | the points are those of the rows with a known place within the margin, in order |
| HeatPicture.RenderHeatTilePng | services/map_query_api/main.cpp:366-472 | the file decodes to the 256 by 256 picture whose pixels show the mean over all kept points |
| HeatPicture.MeanMeaning | services/map_query_api/main.cpp:437-444 | a pixel's mean is in [0.08, 1] where a point reaches it and zero elsewhere |
| HeatMeaning.WeightMeaning | services/map_query_api/main.cpp:424-434 | a point weighs 1 at its own place, exp(-1/2) at 28 pixels and nothing beyond 84, as much at equal distances and strictly more at the smaller one |
| HeatMeaning.MeanOfOne | services/map_query_api/main.cpp:424-444 | where one point reaches alone, the mean is its intensity |
| HeatMeaning.OneMorePulls | services/map_query_api/main.cpp:424-444 | one more point that reaches a pixel moves the mean strictly towards its intensity and not all the way; any other leaves it |
| HeatMeaning.NearerPullsMore | services/map_query_api/main.cpp:424-444 | the mean of two points lies between their intensities, and is nearer to that of a point if and only if the point is nearer to the pixel |
| HeatMeaning.TintMeaning | services/map_query_api/main.cpp:450-469 | the four octets of a share n of the peak are the nearest integers to 255n, 344.25n or 255, 255(1-n) and 40+200n |
| HeatMeaning.HotterTint | services/map_query_api/main.cpp:450-469 | a hotter mean has no less red, green and opacity and no more blue; the peak is [255, 255, 0, 240] and zero is clear |
| HeatMeaning.KeptIff | services/map_query_api/main.cpp:398-400 | a row is kept if and only if its place is known and within 80 pixels of the tile on both axes |
| HeatMeaning.OnePlaceIsADisc | services/map_query_api/main.cpp:366-472 | the picture of one kept row, whatever its layer and value, is a disc of 84 pixels around its place in the colour of the peak, and transparent elsewhere |
| HeatPicture.ShownWhereReached | services/map_query_api/main.cpp:450-469 | a pixel is transparent exactly when no kept point is within 84 pixels of it |
| HeatPicture.ReachesTileIff | services/map_query_api/main.cpp:415-432 | a point reaches the tile if and only if it reaches the pixel nearest to it |
| HeatPicture.MarginIsHarmlessIff | services/map_query_api/main.cpp:398-400 | for all rows, every pixel has the weight of all rows with a known place if and only if no row that the margin leaves out reaches its nearest pixel; the heat is then that of all rows too |
| HeatPicture.HarmlessMarginPicture | services/map_query_api/main.cpp:398-400 | then the picture of the kept rows is the picture of all rows |
| HeatPicture.LostRowMayNotShow | services/map_query_api/main.cpp:398-400 | rows of which one is lost although the picture of the kept rows is that of all rows |
| HeatPicture.MarginCutsOff | services/map_query_api/main.cpp:398-400 | a row that is left out although it reaches the tile: a place 82 pixels off it |
| Base64.Base64Decode | services/map_query_api/main.cpp:1246-1284 | the loop decodes the leading alphabet characters in groups of four, and returns the octets of every encoder output |
| Base64.RoundTrip | services/map_query_api/main.cpp:1246-1284 | decoding undoes the encoder of RFC 4648 section 4 for every octet string, with no, one and two fillers |
| Base64.RestRoundTrip | services/map_query_api/main.cpp:1269-1281 | the fill of an incomplete group, which the table does not have, never reaches the output |
| Base64.SymbolTable | services/map_query_api/main.cpp:1237-1240 | the table has capitals, small letters and digits in order and then + and /, and a symbol is found at its place |
| Base64.GroupIsNumber | services/map_query_api/main.cpp:1256-1266 | four symbols and three octets are the same 24 bits, most significant first |
| Base64.KnownAnswers | services/map_query_api/main.cpp:1246-1284 | the encoder that the decoder undoes meets the test vectors of RFC 4648 section 10 |
| Query.Trim | services/map_query_api/main.cpp:1088-1100 | the two loops return the trimmed text |
| Query.TrimmedIsSlice | services/map_query_api/main.cpp:1088-1100 | trimming removes characters with the codes 9 to 13 and 32 at the ends, all of them there and nothing else |
| Query.UrlDecode | services/map_query_api/main.cpp:1102-1126 | the loop returns the percent-decoded text, in which a malformed escape stands for itself |
| Query.DecodedPrinted | services/map_query_api/main.cpp:1102-1126 | decoding undoes percent-encoding (RFC 3986 section 2.1) with plus signs for spaces, for every octet string |
| Query.AnySpellingIsDecoded | services/map_query_api/main.cpp:1102-1126 | whatever spelling each octet has (itself, a plus for a space, or a percent sign with two digits, small or capital), the text is decoded |
| Query.MalformedStands | services/map_query_api/main.cpp:1105-1118 | a percent sign that two hexadecimal digits do not follow stands for itself, and decoding goes on behind it |
| Query.ParseQuery | services/map_query_api/main.cpp:1128-1148 | the loop terminates and returns the map of the decoded, trimmed pieces, later names replacing earlier ones |
| Query.ParsedPrinted | services/map_query_api/main.cpp:1128-1148 | parsing a printed form enters exactly its trimmed pairs in order, whatever characters they contain |
| Query.PieceMeaning | services/map_query_api/main.cpp:1131-1145 | the first equals sign ends the name, a piece without one is a name with an empty value, an empty piece is nothing, and the rest is parsed with that entered |
| Query.LastSignIsOptional | services/map_query_api/main.cpp:1133-1136 | the last piece counts with and without a sign after it |
| Query.FormRoundTrip | services/map_query_api/main.cpp:1128-1148 | a map printed as a form in any order comes back unchanged if and only if no name or value has white space at an end |
| Escaping.EscapeSqlLiteral | common/timescale/TimescaleBatchWriter.hpp:191-202 | the loop writes every character, quotes twice |
| Escaping.SqlRoundTrip | services/map_query_api/main.cpp:584-595 | a lexer reads the quoted, escaped value back and leaves the following text alone if and only if that text does not start with a quote |
| Escaping.ShellEscape | common/timescale/TimescaleReadClient.hpp:134-145 | the loop writes the value between single quotes, with quotes ended, escaped and reopened |
| Escaping.ShellRoundTrip | common/timescale/TimescaleReadClient.hpp:134-145 | read by the shell's quoting rules, the escaped value adds exactly itself to the word being read |
| Escaping.OneShellWord | common/timescale/TimescaleReadClient.hpp:134-145 | alone, or before a blank or an operator, it is one word equal to the value |
| RingBuffer.AcceptedCapacities | common/rt_safe/LocklessRingBuffer.hpp:17-22 | the constructor accepts zero and exactly the capacities for which the mask steps cyclically |
| RingBuffer.AcceptedArePowers | common/rt_safe/LocklessRingBuffer.hpp:17-22 | apart from zero these are exactly the powers of two |
| RingBuffer.MaskedNextIsNext | common/rt_safe/LocklessRingBuffer.hpp:33 | for an accepted capacity the masked index is the cyclic successor that the two-thread machine steps by |
| RingBuffer.LocklessRingBuffer.Create | common/rt_safe/LocklessRingBuffer.hpp:17-25 | a capacity gives an empty buffer or is refused, exactly by the test |
| RingBuffer.ZeroIsAcceptedAndNeverFull | common/rt_safe/LocklessRingBuffer.hpp:17-37 | with capacity zero the first push does not see a full buffer |
| RingBuffer.LocklessRingBuffer.constructor | common/rt_safe/LocklessRingBuffer.hpp:17-25 | a new buffer is empty |
| RingBuffer.LocklessRingBuffer.Push | common/rt_safe/LocklessRingBuffer.hpp:31-42 | appends unless capacity - 1 items are waiting; a refusal changes nothing |
| RingBuffer.LocklessRingBuffer.Pop | common/rt_safe/LocklessRingBuffer.hpp:48-58 | removes and returns the oldest item, or nothing exactly when empty |
| RingBuffer.LocklessRingBuffer.Size | common/rt_safe/LocklessRingBuffer.hpp:60-65 | the number of waiting items, also after wrapping around |
| RingBuffer.LocklessRingBuffer.Empty | common/rt_safe/LocklessRingBuffer.hpp:67-69 | true exactly when no item waits |
| Spsc.StepKeepsInv | common/rt_safe/LocklessRingBuffer.hpp:31-58 | every single access of either thread keeps the invariant, with stale loads and half-written slots |
| Spsc.StepRefinesFifo | common/rt_safe/LocklessRingBuffer.hpp:31-58 | a step changes the abstract queue only by publishing an item at its end or taking the one at its front |
| Spsc.LoadHeadDecides | common/rt_safe/LocklessRingBuffer.hpp:32-37 | a push fails exactly when capacity - 1 items lie beyond the head it loaded, so a stale load can refuse although there is room |
| Spsc.LoadTailDecides | common/rt_safe/LocklessRingBuffer.hpp:49-53 | a pop returns nothing exactly when the tail it loaded is the head, so a stale load can miss an item |
| Spsc.RefusalsAreExact | common/rt_safe/LocklessRingBuffer.hpp:35-53 | with the current counts loaded, push fails exactly when the queue is full and pop returns nothing exactly when it is empty |
| Spsc.FullAndEmptyAreRefused | common/rt_safe/LocklessRingBuffer.hpp:35-53 | a full queue is refused at any load, and so is an empty one |
| Spsc.NoRace | common/rt_safe/LocklessRingBuffer.hpp:39-55 | no slot is written while it is read |
| Spsc.EveryRunIsFifo | common/rt_safe/LocklessRingBuffer.hpp:31-58 | in every interleaving the popped items are a prefix of the pushed ones and fewer than capacity wait |
| Spsc.HistoriesAreResults | common/rt_safe/LocklessRingBuffer.hpp:31-58 | the histories are exactly what the calls accepted and returned |
| Spsc.PushAlone | common/rt_safe/LocklessRingBuffer.hpp:31-42 | an undisturbed push has the effect of the queue operation |
| Spsc.PopAlone | common/rt_safe/LocklessRingBuffer.hpp:48-58 | an undisturbed pop has the effect of the queue operation |
| Comparator.CopyProfile | services/personal_comparator/main.cpp:152-153 | the copy has 32 characters: the first 31 of the name up to its end or its first NUL, then NULs |
| Comparator.CopyIsIdempotent | services/personal_comparator/main.cpp:305-306 | the second copy, from event to record, does not change the name |
| Comparator.FillRecord | services/personal_comparator/main.cpp:146-157 | the record has the event's timestamp and value, the baseline of the hour of the second that the timestamp falls in and the absolute difference; it is active exactly when the value lies outside the band around that baseline |
| Comparator.FiredForViolators | services/personal_comparator/main.cpp:130-167 | in every reachable state: the actuator fired for exactly the compared events, a prefix of those accepted, whose value lies outside the band around the baseline of their hour, once each and in order |
| Comparator.StepKeepsAccount | services/personal_comparator/main.cpp:130-167 | every step of the three threads keeps the account of events and records |
| Comparator.NothingIsLost | services/personal_comparator/main.cpp:130-167 | in every reachable state: taken records, queued ones, the one in hand and the comparisons of queued events are the comparisons of all accepted events, in order; nothing is dropped while running; the actuator fired exactly for the violations |
| Comparator.WorkerSeesPrefix | services/personal_comparator/main.cpp:195-202 | the database worker takes a prefix of the comparisons |
| LineSplitter.Connection.Receive | services/personal_comparator/main.cpp:293-297 | a received chunk gives the complete lines, and the buffer keeps the rest, without a newline |
| LineSplitter.ReceiveAll | services/personal_comparator/main.cpp:287-297 | the lines of all chunks and the buffer are the split of the whole stream |
| LineSplitter.SplitIsUnique | services/personal_comparator/main.cpp:294-297 | a text splits into lines and a rest in one way only |
| LineSplitter.ChunkingDoesNotMatter | services/personal_comparator/main.cpp:289-297 | streams with the same octets give the same lines however they were cut |
| AsyncQueue.AsyncQueueWriter.Submit | common/timescale/AsyncQueueWriter.hpp:65-87 | accepts exactly when fewer than the maximum wait, then adds the message to the end of the region it belongs to and nothing else |
| AsyncQueue.AsyncQueueWriter.GetTotalQueueSize | common/timescale/AsyncQueueWriter.hpp:150-156 | the number of waiting messages over all regions |
| AsyncQueue.AsyncQueueWriter.DequeueBatch | common/timescale/AsyncQueueWriter.hpp:162-202 | terminates; takes min(batch size, waiting) messages in round-robin order; each region loses a prefix of its queue and keeps the rest; no partition is left empty |
| AsyncQueue.AsyncQueueWriter.SubmitBatch | common/timescale/AsyncQueueWriter.hpp:207-221 | every message is counted once, as processed or as an error |
| AsyncQueue.AsyncQueueWriter.DrainAndSubmit | common/timescale/AsyncQueueWriter.hpp:226-244 | hands over everything waiting, region by region, and leaves nothing |
| AsyncQueue.PushBackMeetsSpec | common/timescale/AsyncQueueWriter.hpp:80-81 | inserting into the ordered map keeps it ordered and changes one region only |
| AsyncQueue.LessMeaning | common/timescale/AsyncQueueWriter.hpp:80-81 | the order of the map's keys is the lexicographic one |
| AsyncQueue.WaitingBelongs | common/timescale/AsyncQueueWriter.hpp:139-148 | what waits in a partition has its region in the payload, or has none there and comes from a source of that name |
| AsyncQueue.OfRegionMeaning | common/timescale/AsyncQueueWriter.hpp:139-148 | the messages of a region in a list are those that belong there in this sense |
| AsyncQueue.RegionsConserved | common/timescale/AsyncQueueWriter.hpp:176-191 | taking one message conserves every region's messages in order |
| AsyncFairness.NobodyIsTwoBehind | common/timescale/AsyncQueueWriter.hpp:174-192 | a region left waiting got at most one message fewer than any other |
| AsyncFairness.BatchIsFair | common/timescale/AsyncQueueWriter.hpp:162-202 | the same of every batch, which also takes a prefix of each region's queue |
| AsyncFairness.WhoIsServed | common/timescale/AsyncQueueWriter.hpp:174-192 | the i-th region is served if and only if the batch has more than i messages |
| AsyncFairness.NobodyStarvesIff | common/timescale/AsyncQueueWriter.hpp:174-192 | every waiting region is served if and only if there are at most batch-size regions |
| AsyncStarvation.WaitingRegionIsPassedOver | common/timescale/AsyncQueueWriter.hpp:65-221 | for every batch size, as many regions before a waiting one and every number n, there is a run with n batches in which the waiting region is passed over by all of them |
| AsyncRuns.EveryRunConserves | common/timescale/AsyncQueueWriter.hpp:65-244 | in every run: bounded queue, no empty partition, accepted = queued + in flight + processed + errors, and per region what was handed on is a prefix of what was accepted |
| AsyncRuns.DrainLeavesNothing | common/timescale/AsyncQueueWriter.hpp:226-244 | after the drain everything accepted was handed on |
| Shutdown.FlushedInOrder | common/timescale/AsyncQueueWriter.hpp:93-121 | with the batch writer behind the queue, in every run of the two threads: flushed, in the flush and pending together are the messages the batch writer queued, in order, and the processed count is what it acknowledged |
| Shutdown.PendingAfterExit | common/timescale/AsyncQueueWriter.hpp:99-115 | once the batch writer's thread has left its loop, exactly what was queued since is pending |
| Shutdown.NothingIsLeftIff | common/timescale/AsyncQueueWriter.hpp:99-115 | nothing is pending then if and only if no hand-over was queued since |
| Shutdown.FlushedAfterExit | common/timescale/AsyncQueueWriter.hpp:99-115 | however long the run goes on, what is flushed stays what was queued before the thread left its loop |
| Shutdown.MessageIsLeftBehind | common/timescale/AsyncQueueWriter.hpp:93-121 | a run in which a drained message is counted as processed and stays pending |
| DedupCache.CacheUpdate | common/timescale/TimescaleBatchWriter.hpp:129-138 | evicting the oldest id of a full cache and adding the new one keeps set and order equal to the last 10000 queued ids |
| DedupCache.Intake.Submit | common/timescale/TimescaleBatchWriter.hpp:111-143 | refuses invalid envelopes and a full queue leaving everything as it was, takes duplicates silently, queues the rest |
| DedupCache.Intake.TakeBatch | common/timescale/TimescaleBatchWriter.hpp:156-166 | takes up to a batch from the front, oldest first |
| DedupCache.Intake.FinalBatch | common/timescale/TimescaleBatchWriter.hpp:173-181 | takes everything pending |
| DedupCache.RepeatsAreFarApart | common/timescale/TimescaleBatchWriter.hpp:124-138 | an id is queued twice only with 10000 other, pairwise distinct ids between |
| DedupCache.DuplicateMeansRecent | common/timescale/TimescaleBatchWriter.hpp:124-127 | an envelope counts as a duplicate exactly when its id is among the last 10000 queued |
| BatchWriterRuns.AcknowledgedIsSafeIff | common/timescale/TimescaleBatchWriter.hpp:111-187 | in every run of submissions, batches taken and flushes stored or lost: the acknowledged ids are those ever queued, and an id waits or is stored if and only if one of its copies was not in a lost batch |
| BatchWriterRuns.RetryIsSwallowed | common/timescale/TimescaleBatchWriter.hpp:111-143 | once all copies of an id are lost and until a cache's length of others was queued, submitting it again queues nothing, although it is acknowledged |
| BatchWriterRuns.AcknowledgedAndLost | common/timescale/TimescaleBatchWriter.hpp:111-187 | a run in which both submissions of an id are acknowledged and nothing of it is left |
| BatchWriter.TimescaleBatchWriter.Submit | common/timescale/TimescaleBatchWriter.hpp:111-143 | the intake inside the whole writer takes the machine's step and returns false exactly on a refusal |
| BatchWriter.TimescaleBatchWriter.RunOnce | common/timescale/TimescaleBatchWriter.hpp:153-170 | a round of the thread takes a batch and flushes it, as the machine does, whatever database and file do |
| BatchWriter.TimescaleBatchWriter.Finish | common/timescale/TimescaleBatchWriter.hpp:173-185 | after the loop everything pending is taken and flushed |
| BatchWriter.AcknowledgedIsKeptIff | common/timescale/TimescaleBatchWriter.hpp:111-187 | of the whole writer: an id is pending or recorded if and only if one of its queued copies was not in a batch that database and outbox both refused, and only acknowledged ids are |
| Hazards.HazardScore | common/timescale/TimescaleBatchWriter.hpp:276-284 | between 0 and 100 for every packet |
| Hazards.DelayFactor | common/timescale/TimescaleBatchWriter.hpp:405-407 | between 1 and 1.6 for every packet |
| Hazards.ScoreExtremes | common/timescale/TimescaleBatchWriter.hpp:276-284 | when the score is 0 and when 100 |
| Hazards.NormMeaning | common/timescale/TimescaleBatchWriter.hpp:241-274 | what each hazard measures: where it is 0, where it is 1, that it is linear between, and that nothing measured is no hazard |
| Hazards.HazardWeighs | common/timescale/TimescaleBatchWriter.hpp:276-284 | packets that differ in one hazard have scores that differ by 33, 28, 19, 15 or 5 times the difference of its norms |
| Hazards.HazardDelays | common/timescale/TimescaleBatchWriter.hpp:405-407 | and delay factors that differ by the matching shares, the wind counting once more |
| Hazards.DelayExtremes | common/timescale/TimescaleBatchWriter.hpp:405-407 | when the factor is 1 and when 1.6 |
| Hazards.PrimaryIsFirstGreatest | common/timescale/TimescaleBatchWriter.hpp:286-306 | the primary hazard has the greatest norm, ties going to the order wind, precipitation, visibility, cloud, temperature |
| Hazards.PrimaryMeaning | common/timescale/TimescaleBatchWriter.hpp:286-306 | the exact condition for each of the five |
| Grouping.GroupsPartition | common/timescale/TimescaleBatchWriter.hpp:364-404 | group sizes over all keys add up to the number of samples |
| Grouping.HoldsAfterOneMore | common/timescale/TimescaleBatchWriter.hpp:364-414 | a map of accumulators stays the group-by of the samples when one is entered |
| Aggregation.AddToTile | common/timescale/TimescaleBatchWriter.hpp:368-400 | the tile branch of the loop adds the sample to the sums, counts and extremes, absent measurements adding nothing |
| Aggregation.AddToRoute | common/timescale/TimescaleBatchWriter.hpp:402-414 | the route branch of the loop turns the statistic of a group into that of the group with the sample |
| Aggregation.Accumulate | common/timescale/TimescaleBatchWriter.hpp:340-415 | one pass leaves a raw row per valid envelope and three maps equal to the group-bys |
| Aggregation.CityRows | common/timescale/TimescaleBatchWriter.hpp:417-454 | one row for every city group, with its minimum, maximum and averages |
| Aggregation.TileRows | common/timescale/TimescaleBatchWriter.hpp:456-483 | one row for every tile group, options empty when nothing was measured |
| Aggregation.RouteRows | common/timescale/TimescaleBatchWriter.hpp:485-503 | one row for every route group |
| Aggregation.FlushBatch | common/timescale/TimescaleBatchWriter.hpp:308-503 | what a flush writes is the declarative group-by of the batch's valid envelopes |
| Aggregation.CountsAddUp | common/timescale/TimescaleBatchWriter.hpp:417-503 | city, tile and route counts each add up to the number of valid envelopes |
| Aggregation.CityRowIsSound | common/timescale/TimescaleBatchWriter.hpp:427-453 | minimum <= average <= maximum, and samples attain both bounds |
| Aggregation.HazardsAreInRange | common/timescale/TimescaleBatchWriter.hpp:456-503 | hazard averages lie in [0, 100], delay factors in [1, 1.6] |
| Aggregation.PrimaryOfTheWorst | common/timescale/TimescaleBatchWriter.hpp:411-414 | a route's primary hazard is that of the earliest packet with the group's greatest hazard |
| RowMeaning.MinuteMeaning | common/timescale/TimescaleBatchWriter.hpp:204-206 | the bucket is the multiple of 60000 with bucket <= t < bucket + 60000, or, before 1970, with bucket - 60000 < t <= bucket |
| RowMeaning.TileMeaning | common/timescale/TimescaleBatchWriter.hpp:219-230 | packets with a place have the same tile if and only if they are in the same cell of 1/32 degree; one without has its region and city |
| RowMeaning.RawRowOfEnvelope | common/timescale/TimescaleBatchWriter.hpp:340-362 | every valid envelope has a raw row with its columns |
| RowMeaning.CityRowOfSample | common/timescale/TimescaleBatchWriter.hpp:364 | every sample has a city row of its minute, continent, country, region and city |
| RowMeaning.TileRowOfSample | common/timescale/TimescaleBatchWriter.hpp:366-368 | every sample has a tile row of its minute, tile, continent, country and region |
| RowMeaning.RouteRowOfSample | common/timescale/TimescaleBatchWriter.hpp:402-404 | every sample has a route row of its minute and region, its route or one named after the region, its station or its tile |
| RowMeaning.RowsAreApart | common/timescale/TimescaleBatchWriter.hpp:417-503 | no two rows of a flush have the same key |
| RowMeaning.CityRowGrows | common/timescale/TimescaleBatchWriter.hpp:427-453 | a sample more adds one to the count and its values to the three means |
| RowMeaning.CityExtremesGrow | common/timescale/TimescaleBatchWriter.hpp:433-437 | the range becomes what it was with the sample's temperature |
| RowMeaning.TileRowGrows | common/timescale/TimescaleBatchWriter.hpp:369-383 | the same for a tile's count, means and hazard |
| RowMeaning.TileOptionsGrow | common/timescale/TimescaleBatchWriter.hpp:373-400 | the means of cloud, pressure and place count only the samples that have the value, a place only with both coordinates |
| RowMeaning.TileExtremesGrow | common/timescale/TimescaleBatchWriter.hpp:384-397 | the worst sight and the heaviest rain become what they were with the sample's |
| RowMeaning.RouteRowGrows | common/timescale/TimescaleBatchWriter.hpp:405-410 | a sample more adds its score and delay factor to the means of a route row |
| Upsert.CityMergeLaws | common/timescale/TimescaleBatchWriter.hpp:604-610 | the city conflict rule is associative and idempotent |
| Upsert.TileMergeLaws | common/timescale/TimescaleBatchWriter.hpp:650-661 | the tile conflict rule is associative and idempotent, NULL giving way in LEAST and GREATEST |
| Upsert.CityOverwrites | common/timescale/TimescaleBatchWriter.hpp:604-610 | a city row's count and averages are overwritten by any later row, which brings back exactly these columns when it comes again |
| Upsert.TileOverwrites | common/timescale/TimescaleBatchWriter.hpp:650-661 | the same for a tile row's count, position, averages and hazard; continent and country stay as first inserted |
| Upsert.RouteOverwrites | common/timescale/TimescaleBatchWriter.hpp:674-677 | the same for a route row's hazard, delay factor and primary hazard; the region stays as first inserted |
| Upsert.ExecuteIsApply | common/timescale/TimescaleBatchWriter.hpp:561-683 | executing SQL applies to each of the four tables its own log of upserts |
| Slots.CitiesAreApart | common/timescale/TimescaleBatchWriter.hpp:604 | after any SQL on empty tables, two stored city rows are one if and only if they agree in minute, continent, country, region and city |
| Slots.CityIsStored | common/timescale/TimescaleBatchWriter.hpp:604-610 | every city statement ends in a stored row that agrees with it in these, and the last such statement has set its count and averages |
| Slots.StoredCityWasSent | common/timescale/TimescaleBatchWriter.hpp:604-610 | and every stored row is of such a statement |
| Slots.TilesAreApart | common/timescale/TimescaleBatchWriter.hpp:650 | the same of tiles, with minute, tile and region |
| Slots.TileIsStored | common/timescale/TimescaleBatchWriter.hpp:650-661 | and of their count, position, averages and hazard |
| Slots.StoredTileWasSent | common/timescale/TimescaleBatchWriter.hpp:650-661 | every stored tile row is of a statement that agrees with it in these columns |
| Slots.RoutesAreApart | common/timescale/TimescaleBatchWriter.hpp:674 | the same of routes, with minute, route and segment |
| Slots.RouteIsStored | common/timescale/TimescaleBatchWriter.hpp:674-677 | and of their hazard, delay factor and primary hazard |
| Slots.StoredRouteWasSent | common/timescale/TimescaleBatchWriter.hpp:674-677 | every stored route row is of a statement that agrees with it in these columns |
| Upsert.InterruptedReplay | common/timescale/TimescaleBatchWriter.hpp:530-559 | a replay that stopped anywhere and is repeated from the start ends in the same four tables |
| Upsert.ReplayTwice | common/timescale/TimescaleBatchWriter.hpp:530-559 | replaying twice back to back is replaying once |
| Upsert.LateReplay | common/timescale/TimescaleBatchWriter.hpp:530-559 | a second replay with other batches in between changes no raw row and no minimum or maximum |
| MergeAlgebra.LateReplayIff | common/timescale/TimescaleBatchWriter.hpp:530-559 | for any table, log and later log under such a rule: replaying the first log late brings back its own columns, and changes nothing if and only if the last rows of the two logs agree wherever both have one |
| Upsert.LateReplayRollsBack | common/timescale/TimescaleBatchWriter.hpp:530-559 | a late replay takes the overwritten columns of every city, tile and route in the log back to the log's last row, and leaves the database as it was if and only if the last rows of the log and of the batches since agree in all three tables |
| Upsert.OneRowRollsBack | common/timescale/TimescaleBatchWriter.hpp:604-610 | the smallest case: an older city row replayed after a newer one |
| BatchSql.BuildBatchSql | common/timescale/TimescaleBatchWriter.hpp:561-683 | the four loops write a statement for every row, table by table |
| BatchSql.StatementsAreRows | common/timescale/TimescaleBatchWriter.hpp:561-683 | the statements are those of the rows of all four kinds and no others |
| BatchSql.RowsStandForSamples | common/timescale/TimescaleBatchWriter.hpp:604-661 | a table's rows of a batch have, at every slot, the total of the batch's samples, although tile keys are finer than tile slots |
| BatchSql.BatchStandsForSamples | common/timescale/TimescaleBatchWriter.hpp:561-683 | the SQL of a flush stands for exactly the samples of its batch in the raw, city and tile tables |
| BatchSql.TotalIsExtremes | common/timescale/TimescaleBatchWriter.hpp:604-661 | that total is the minimum and maximum over the samples of the slot |
| Outbox.OutboxWriter.FlushBatch | common/timescale/TimescaleBatchWriter.hpp:505-528 | whatever the database and the file do, a batch one of them took is recorded once and for all; only a batch both refuse is lost |
| Outbox.OutboxWriter.ReplayOutbox | common/timescale/TimescaleBatchWriter.hpp:530-559 | a finished, failed or interrupted replay, with the file emptied or not, keeps the record |
| Outbox.NothingIsLost | common/timescale/TimescaleBatchWriter.hpp:505-559 | with an empty outbox, the raw table has exactly the recorded ids and every city and tile has the extremes over all its recorded samples |
| Histories.RawRowsAreSamples | common/timescale/TimescaleBatchWriter.hpp:505-559 | after any batches and replays, whole or interrupted, every stored raw row is one of the recorded samples, with its id |
| Outbox.BatchingDoesNotMatter | common/timescale/TimescaleBatchWriter.hpp:588-677 | histories that recorded the same set of samples end with the same raw ids and the same minimum and maximum columns |
| Outbox.RawRowsStay | common/timescale/TimescaleBatchWriter.hpp:588 | no SQL of the writer changes a stored raw row |
| LastRows.CityRowIsOfTheLastBatch | common/timescale/TimescaleBatchWriter.hpp:604-610 | a batch overwrites a city's count and averages by its own, or leaves the row alone |
| Histories.CityIsOfOneBatch | common/timescale/TimescaleBatchWriter.hpp:505-559 | after any batches and replays, a city's count and averages are those of one batch's samples of the city |
| Histories.TileIsOfOneBatch | common/timescale/TimescaleBatchWriter.hpp:505-559 | likewise a tile's overwritten columns, of one batch's samples of one tile key |
| Histories.RouteIsOfOneBatch | common/timescale/TimescaleBatchWriter.hpp:505-559 | likewise a route segment's hazard, delay factor and primary hazard |
| Histories.CountIsTotalIff | common/timescale/TimescaleBatchWriter.hpp:505-559 | after any batches and replays, whole or interrupted, a city's count is the number of its recorded samples if and only if no two batches had any |
| Histories.CountCanMissSamples | common/timescale/TimescaleBatchWriter.hpp:604-610 | two batches with a report each on one city and minute leave a count of one |
| Histories.TileCountIsTotalIff | common/timescale/TimescaleBatchWriter.hpp:505-559 | after any batches and replays a tile's count is the number of recorded samples at its slot if and only if no two batches had any and all have one tile key |
| LastRows.TileCountIsBatchTotalIff | common/timescale/TimescaleBatchWriter.hpp:650-661 | after a batch, a tile's count is the batch's number of samples at its slot if and only if all of these have one tile key; otherwise its rows overwrite each other |
| LastRows.TileCountCanMissSamples | common/timescale/TimescaleBatchWriter.hpp:650-661 | a batch with reports from two countries on one tile leaves one of them out of the tile's count |
| Vectors.SpreadIsPositive | apps/weather_dashboard/app.js:725 | n times the square sum less the squared sum is never negative, and zero exactly for equal values |
| Vectors.SpreadIsDeviation | apps/weather_dashboard/app.js:724-725 | the accumulated expressions are n times the products of the deviations from the means |
| Statistics.SpreadsAreConsistent | apps/weather_dashboard/app.js:724-725 | the squared numerator is at most the product under the root, and either factor is zero exactly when its sequence does not vary |
| Statistics.SumUp | apps/weather_dashboard/app.js:715-722 | the loop computes the five sums |
| Statistics.PearsonCorrelation | apps/weather_dashboard/app.js:711-729 | the result is in [-1, 1], and zero when a sequence does not vary, which includes fewer than two values |
| Statistics.CorrelationIsTextbook | apps/weather_dashboard/app.js:711-729 | it is the deviation product over the root of the square deviations |
| Statistics.PerfectCorrelation | apps/weather_dashboard/app.js:724-728 | it is 1 if and only if the points lie on a rising line, and -1 if and only if they lie on a falling one |
| Statistics.LinearRegression | apps/weather_dashboard/app.js:933-945 | unless all xs are equal, the line has the least square error of all lines and is the only one with it, and its residuals sum to zero |
| Statistics.OtherLine | apps/weather_dashboard/app.js:942-943 | any other line's square error exceeds the fit's by the square sum of the distances between the two lines |
| Statistics.OrthogonalIsBest | apps/weather_dashboard/app.js:942-944 | a line whose residuals are orthogonal to the xs and sum to zero is the one best line |
| Statistics.ZeroByZero | apps/weather_dashboard/app.js:942 | where the denominator of the slope is zero, so is the numerator |
| FlowControl.FlowController.constructor | common/rt_safe/FlowController.hpp:15-18 | the bucket starts full |
| FlowControl.FlowController.UpdateTokens | common/rt_safe/FlowController.hpp:49-62 | the refill, skipped within a millisecond and while no whole token is due, with the wrap-around of the product |
| FlowControl.FlowController.TryAcquire | common/rt_safe/FlowController.hpp:39-46 | grants exactly when the refilled bucket holds enough, and leaves the refilled tokens less the amount, or all of them |
| FlowControl.FlowController.Acquire | common/rt_safe/FlowController.hpp:24-37 | the first grantable round is granted and none before it, and it leaves what it found less the amount |
| FlowControl.RunKeepsBalance | common/rt_safe/FlowController.hpp:24-62 | in every run on a clock that does not go back, grants and remaining tokens are covered by the time paid in, and the bucket never exceeds the burst |
| FlowControl.BoundFromStart | common/rt_safe/FlowController.hpp:24-62 | tokens granted by a time are at most burst + rate * time, despite truncation, skipped refills and wrap-around |
| FlowControl.WindowBound | common/rt_safe/FlowController.hpp:24-62 | over any window, whenever it opens, the tokens granted are at most the burst plus rate * time plus a millisecond's worth of tokens, or a token and a microsecond's |
| FlowControl.SlackIsAttained | common/rt_safe/FlowController.hpp:49-62 | for every whole number of tokens a microsecond there is a window of a nanosecond in which that bound is attained |
| FlowControl.SlowSlackIsAttained | common/rt_safe/FlowController.hpp:49-62 | so it is at one token a second, where the slack is a token and a microsecond's |
| FlowControl.RefillIsExactIff | common/rt_safe/FlowController.hpp:53-54 | a refill misses no whole token that is due if and only if the product fits 64 bits |
| FlowControl.TooMuchIsNeverGranted | common/rt_safe/FlowController.hpp:28-57 | a request above the burst is never granted |
| FlowControl.GrantedOnceDue | common/rt_safe/FlowController.hpp:28-59 | a request of at most the burst is granted once its tokens are due, if nothing wraps |
| FlowControl.RefillMeaning | common/rt_safe/FlowController.hpp:49-62 | when nothing wraps, a refill adds the whole tokens due for the whole microseconds since the last one, up to the burst, as of now, and nothing within a millisecond or before a token is due |
| FlowControl.GrantsTakeNoMore | common/rt_safe/FlowController.hpp:24-62 | in every run in which nothing wraps, the tokens left and those granted are together at least those at the start |
| FlowControl.SpareIsGranted | common/rt_safe/FlowController.hpp:24-62 | so a request is granted whenever it and what was granted before come to at most the tokens at the start |
| FlowControl.WaitIsBounded | common/rt_safe/FlowController.hpp:24-62 | while all polls of such a request are refused, the time is at most about twice what the missing tokens take, plus the slack, if nothing wraps |

## Left out

- Png.EncodePngRgba: says nothing about pictures whose data chunk has 2^32 octets or more, where the length field is cut to its low 32 bits.
- Base64.Base64Decode: texts of 2^31 characters or more, whose length does not fit the `int` that counts them.
- RingBuffer.LocklessRingBuffer.constructor: takes accepted capacities of at least one; zero, with which the code would write outside its buffer, is the subject of RingBuffer.ZeroIsAcceptedAndNeverFull, and the exception for others is the `None` of RingBuffer.LocklessRingBuffer.Create.
- AsyncQueue.AsyncQueueWriter.DequeueBatch: the wait for messages or the timeout before the loops; the batch may be empty.
- DedupCache.Intake.TakeBatch: the wait of the writer thread before it takes a batch.
- BatchWriter.TimescaleBatchWriter.RunOnce: takes and flushes in one call; submissions that come between the two are covered by the steps of BatchWriterRuns.
- Aggregation.FlushBatch: the order of the rows within a table, which the model leaves open; every statement holds for any order.
- FlowControl.FlowController.Acquire: covers as many rounds as clock readings are given; one caller at a time, as the load and store of the refill are not atomic against a concurrent caller.
- Statistics.PearsonCorrelation: rounding and overflow of doubles; the same for Statistics.LinearRegression and HeatPicture.RenderHeatTilePng.
- HeatPicture.RenderHeatTilePng: the Mercator projection and the look-up of a row's place; rows come with their pixel position.
- Outbox.OutboxWriter.FlushBatch: what a database does on errors other than taking all of a batch's transaction or nothing of it.
- HeatTile.HeatIntensity: states the bounds that the picture needs; where and how each layer reaches them is stated by HeatTile.IntensityMeaning and HeatTile.IntensityIsLinear.
- Escaping.SqlRoundTrip: is about a lexer that ends a literal at its closing quote; PostgreSQL also joins it with a second literal that follows after white space containing a newline.
- The comparator's ingest queue at overflow: the server drops the event with a message; the model speaks of accepted events.
- Sockets, epoll, HTTP serving, libcurl, libpq and psql processes, files, signals, memory locking and scheduling.
- `TCPSocket::receiveMessage`, whose time-out inside a frame discards what was read.
- JSON parsing, SQL text other than literals, logging, metrics export, local-time conversion.
- Dashboards, charts, collectors, the simulator, migrations and scripts.
- `MapAnalytics.hpp`, which repeats the hazard functions with other weights.
