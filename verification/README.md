# A verified model of n-player

n-player converts compressed Databento Binary Encoding files to Parquet and
serves Arrow IPC streams to a player thread. This project models how it does
so, and proves for every input and every interleaving what the result is.

The center is one theorem in two halves. `Pipeline.ConvertFile` runs the parser
over a file as the decompressor delivers it, fills the batch builder with the
records it yields, and puts the writer thread beside; it says that a conversion
that returns has written the rows of the matching records among the first
`limit` of the file, in order, cut into full batches, with every record either
written or skipped, and that the batches of arrays read as these row groups, for
all ways the bytes are cut into chunks, all positive batch sizes and queue
depths, and all interleavings of the two threads. `Pipeline.ConvertRecords` says
that from what was written the record bytes can be read back, and
`Pipeline.ConversionReturnsIff` says exactly when a conversion returns. Around it:

| file | what it models |
|---|---|
| `Writer`, `WriterSafety`, `WriterLiveness`, `WriterTheorems`, `Faults`, `Faultless`, `Peak`, `SecondClose` | the threaded Parquet writer as two processes over a bounded queue: a step relation, the invariant of all interleavings, progress, the promises of append, close and destruction, that no fault is lost, the one result of runs without faults, a run that holds the most rows, and what a second close() gives |
| `Framer`, `DbnParser` | cutting a record stream: on all bytes at once, and from a buffer refilled by decompression chunks |
| `Header`, `HeaderReader`, `HeaderTheorems` | the metadata header: encoder, parser, and the bounds-checked cursor |
| `Records`, `Rows`, `RowTheorems` | a record as a row, and the record read back from the row |
| `Columns`, `ColumnLists`, `Schemas`, `Builders` | columns on arrays with null bitmaps and offsets, the columns of a schema with buffers of their own, and the batch builders of the two schemas |
| `Pipeline` | parser, builder and writer together |
| `MappingText` | the text of the file metadata and a parser for it |
| `Jobs`, `Commit`, `Trees` | how many files are converted at once, the workers, the commit of each output, and what the outputs hold |
| `Backplay`, `Player` | serving a stream from a socket, and playing what it emits |
| `Wrappers`, `Bytes`, `Batches`, `Dbn` | results, little-endian integers, cutting into batches, wire constants |

## How the two-thread writer is modelled

A `State` holds the program counters of the calling thread and the writer
thread, the fields each thread owns, the queue, the status and the failed flag.
One step is one access to something both threads touch: taking or adding a
queue item, reading or setting the flag, writing the status, joining. The
assignment of the status and the store of the flag are two steps. Each write of
a row group, each allocation and each close of the file may fail, as the move
says. A move names the thread that steps, so a sequence of moves is an
interleaving, and a poll of a full or empty queue leaves the state as it is.
Steps interleave one at a time: what acquire and release on `failed_` and the
join must give is stated as `WriterTheorems.PlainReadsAreSafe`, that append()
and a first close() read neither plain variable while the other thread may still
write it. A second close() may: `SecondClose.ReadIsOrderedIff` says exactly when.

Assumed about code outside the repository: the `nlib` queue is a first-in
first-out queue of exactly the capacity asked for, whose failed push leaves its
argument as it was (the retry loop depends on it: a batch moved away by a
failed push would look like the sentinel); a failed `WriteRecordBatch` adds no
row group.

## Model

| member | source | states |
|---|---|---|
| Pipeline.ConvertFile | src/DbnParser.cpp:274-300 | a conversion of a file delivered in any chunks fails to open as its bytes say, or runs as the conversion of its bytes; if it returns, it wrote the partition into full batches of the decoded records of the schema, in file order, rows and skipped records add up to the records read, and the batches of arrays still read as the row groups |
| Pipeline.ConvertBoth | src/DbnParser.cpp:242-264 | two conversions of the same bytes, cut into different chunks and run with different queue depths and interleavings, fail to open with the same error; if both return, it is with the same file and counts; and if nothing fails they end alike, in the same error, a short record or a failed read, if in any |
| Pipeline.FaultlessConversion | src/DbnParser.cpp:286-296 | without faults a finished conversion ends in the error of its plan, a short record or else how reading stopped, and in one file and one pair of counts |
| Pipeline.ConvertRecords | src/DbnParser.cpp:274-300 | a file of one schema's records, in any chunks and under any faultless interleaving, ends in a file that holds them all: each record can be read back from its row but for the length byte |
| Pipeline.ConvertRecordsToTheEnd | src/DbnParser.cpp:274-300 | any faultless schedule that keeps running both threads, for rounds linear in the records, does end in that file |
| Pipeline.OneRowPerRecordIff | README.md:94-99 | a file gives one row per record if and only if every record has the type of the file's schema and the length of its fields |
| Pipeline.ReturnedRowsAreRecordsIff | src/ParquetWriter.cpp:546-553 | a conversion that returns wrote one row per record if and only if every record has the type of the schema, which is if and only if none was skipped |
| Pipeline.RecordWithoutRow | src/ParquetWriter.cpp:308-309 | a well-formed mbo file whose one record is a 16-byte record of another type: the conversion returns 0 rows and 1 skipped |
| Pipeline.PlanIff | src/DbnParser.cpp:277-287 | there is something to convert if and only if the bytes are a DBN file, its schema is mbo (0) or trades (4), and batches have rows; then it is the framing of the record bytes by that schema's kind |
| Pipeline.ConversionRefusedFor | src/DbnParser.cpp:277-287 | anything else is refused with the first of four errors: not a file, mixed schemas, another schema, batches without rows |
| Pipeline.ConversionReturnsIff | src/DbnParser.cpp:242-264 | whatever fails and however the threads interleave, a conversion that ended returned if and only if the delivery holds whole records to an end outside any zstd frame, or as many as the limit asks for, no record of the schema is short, and no call failed |
| Pipeline.ReadFile | src/DbnParser.cpp:277-290 | reading a file chunk by chunk yields the plan of its bytes: same error, same records, same stop, and batches that read as the partition of the decoded rows |
| Pipeline.PlanIsWritten | src/DbnParser.cpp:286-296 | from the writer on: a conversion of any framing that returns has written its decoded rows |
| Pipeline.ConvertSucceedsIff | src/DbnParser.cpp:286-296 | without faults a finished conversion returned if and only if the file frames well and no record of the schema is shorter than its fields |
| Pipeline.LimitConvertsFirst | src/DbnParser.cpp:255 | a limit converts the first records of the file and no others |
| Pipeline.RecordsRoundTrip | src/DbnParser.cpp:286-291 | the file of a faultless conversion has one row per record, and each record can be read back from its row but for the length byte |
| Pipeline.PlanOfFile | src/DbnParser.cpp:170-240 | opening a file made of a header and records of one schema finds exactly these records |
| Pipeline.ConvertSequentially | src/DbnParser.cpp:277-291 | parser and builder on one thread produce the batches the threaded conversion writes, with the same errors |
| WriterSafety.StepKeepsInv | src/ParquetWriter.cpp:539-596 | every step of either thread, whether its call fails or not, keeps control, row, count, failure and flow invariants |
| WriterTheorems.Reached | src/ParquetWriter.cpp:539-596 | so every state of every interleaving satisfies them |
| WriterTheorems.BatchesConserved | src/ParquetWriter.cpp:555-584 | the file is always the beginning of the batches handed over; until a write fails, file, item in hand, queue and item being pushed are all of them in order; the row count is that of the file, one batch behind between a write and its count |
| WriterTheorems.FailedBatchIsNext | src/ParquetWriter.cpp:576-581 | the batch whose write failed is the first one the file lacks, and the file holds all before it |
| WriterTheorems.FailureIsFinal | src/ParquetWriter.cpp:565-596 | after a failed write the file never grows, the status is never rewritten, the footer is never written and close() does not return |
| WriterTheorems.PlainReadsAreSafe | src/ParquetWriter.cpp:547-595 | whenever append() or a first close() reads the status it is the error, and the writer thread will not write it again; a first close() reads the row count only after the thread has exited |
| WriterTheorems.CloseReturnsEveryRow | src/ParquetWriter.cpp:586-596 | if close() returns, the file is the partition of all rows appended, the footer is written, the count returned is that of the rows, and every record was written or skipped |
| WriterTheorems.CloseReportsFailedWrite | src/ParquetWriter.cpp:565-596 | when only writes can fail, a finished writer threw the one write status if and only if a write failed, and otherwise returned the row count |
| WriterTheorems.NoFaultsNoLoss | src/ParquetWriter.cpp:546-596 | when nothing fails, a finished writer returned and holds every row |
| WriterTheorems.EveryLifeEndsJoined | src/ParquetWriter.cpp:539-544 | close, a throw in append, a throw in close and destruction alone each send one sentinel, as the last item, empty the queue and join |
| WriterTheorems.LiveRowsBounded | src/ParquetWriter.cpp:501-506 | the rows open, being pushed, queued and being encoded never exceed (queue depth + 2) batches of batch_rows |
| WriterTheorems.LiveBatchesBounded | src/ParquetWriter.cpp:502-503 | the batches reserved or being pushed, queued, and in the writer thread's hand are at most queue depth + 2 |
| Peak.LiveRowsReached | src/ParquetWriter.cpp:502-503 | that bound on rows is reached: for every batch size and queue depth, with rows enough, some run holds as many |
| WriterTheorems.FooterMeansAll | src/ParquetWriter.cpp:586-594 | the footer is only ever written under a file that holds the partition of all rows, close() returning or throwing after it |
| Faults.NoFaultIsLost | src/ParquetWriter.cpp:555-595 | in every interleaving, once an allocation in flush(), a write of a row group or a close of the file has failed, close() does not return |
| Faults.ReturnedIff | src/ParquetWriter.cpp:546-596 | a finished writer returned if and only if it was closed, no record was short, and no call failed |
| Faults.ThrowsWhatFailed | src/ParquetWriter.cpp:41-43 | an exception is one of the faults met, with its text, or comes of the short record that is next, or of the caller |
| Faults.AppendThrowsOnceFailed | src/ParquetWriter.cpp:547 | once the failure flag is up, append() throws the thread's status and takes nothing |
| Faults.FailureStopsAppends | src/ParquetWriter.cpp:546-553 | however the run goes on after that, at most the one record whose append() had looked at the flag before is still taken |
| Faultless.FaultlessRunsAgree | src/ParquetWriter.cpp:539-596 | every finished run without faults has the one result of its script, whatever the depth and interleaving: outcome, row groups, skips and footer, also when a short record or the caller ends it in a throw |
| WriterTheorems.AppendHasRoom | src/ParquetWriter.cpp:308-310 | before every append of the builder a whole batch is reserved and the open batch holds fewer rows |
| SecondClose.Agrees | src/ParquetWriter.cpp:587 | a second close() agrees with the first if and only if the first returned, that is, when only writes can fail, if and only if none failed |
| SecondClose.CanHideFailure | src/ParquetWriter.cpp:586-595 | every script shorter than a batch has a run in which close() throws for the failed write and a second close() returns |
| SecondClose.ReadIsOrderedIff | src/ParquetWriter.cpp:586-595 | a second close() reads a row count that the writer thread cannot be changing if and only if the first one came to the join or no batch was ever handed over |
| SecondClose.ReadCanRace | src/ParquetWriter.cpp:557-595 | two rows a batch and three rows: close() throws from flush(), a second one returns 0, and the next step of the writer thread makes the count 2 |
| Records.RowsInOrder | src/ParquetWriter.cpp:546-553 | each row stands behind the rows of the records before it, unchanged |
| Records.RowsAndSkipped | src/ParquetWriter.cpp:546-553 | rows and skipped records add up to the records appended |
| WriterLiveness.StepReducesWork | src/ParquetWriter.cpp:539-596 | every step that is not a poll reduces a measure of the work left |
| WriterLiveness.PollsIff | src/ParquetWriter.cpp:561-574 | a thread waits only with a full queue to push to, an empty one to pop from, or a live thread to join |
| WriterLiveness.NoDeadlock | src/ParquetWriter.cpp:561-584 | in every reachable unfinished state, failed or not, one thread has a step that is not a poll |
| WriterLiveness.FairRunsEnd | src/ParquetWriter.cpp:539-596 | any schedule that keeps running both threads ends the writer's life joined, in rounds linear in the number of records |
| Batches.CutIsPartition | src/ParquetWriter.cpp:552-559 | batches that are all full but the last, and none empty, are the one partition of their rows |
| Batches.PartitionIsCut | src/ParquetWriter.cpp:552-559 | the partition has only full batches but a non-empty last one, and concatenates to the rows |
| Batches.PartitionIsShortest | src/ParquetWriter.cpp:552-559 | the number of batches is the number of rows divided by batch_rows, rounded up |
| Framer.FramesKeepBytes | src/DbnParser.cpp:242-264 | the records are well formed and, with the rest, make up the bytes |
| Framer.FramesStop | src/DbnParser.cpp:248-261 | why the framing stopped: at the limit after exactly that many records, else because no further record can be cut; a clean end needs all bytes consumed, a cut record bytes left that are too few, a bad length is that of the record at the index given, and a stream error is the stream's |
| Framer.ReadsWellIff | src/DbnParser.cpp:242-264 | framing ends well if and only if the bytes are whole records to a clean end, or start with as many as the limit asks for |
| Framer.FramesOfRecords | src/DbnParser.cpp:242-264 | framing undoes writing well-formed records one after the other |
| Framer.SplitLimit | src/DbnParser.cpp:242-264 | reading a > 0 records and then b more, or all, is reading a + b, or all, in one call: records, outcome and rest, also when the end lies within either part |
| Framer.FramesContinue | src/DbnParser.cpp:255 | going on after a limit is the same as not having stopped; any other stop comes before the limit and would have come without it |
| Framer.LimitTakesFirst | src/DbnParser.cpp:255 | a limit keeps the first records of the framing |
| Parser.EndsWellIff | src/DbnParser.cpp:148-168 | a stream ends well if and only if its input is read to the end and no zstd frame is open there; else the error says which of the three things went wrong |
| Parser.DbnParser.Fill | src/DbnParser.cpp:148-168 | a fill adds decompressed bytes, skipping calls that produce none, or reports a clean end, or the stream's error |
| Parser.DbnParser.ReadMetadata | src/DbnParser.cpp:170-240 | reading the header in chunks yields what opening all bytes at once yields, errors included, and leaves exactly the record bytes |
| Parser.DbnParser.Refill | src/DbnParser.cpp:257-263 | a refill starts from at most 1019 unconsumed bytes, keeps all bytes left, and leaves at most 1019 and one chunk in the buffer |
| Parser.DbnParser.YieldBuffered | src/DbnParser.cpp:246-256 | yields the records complete in the buffer and stops at the limit, at a bad length, or with less than one record left |
| Parser.DbnParser.ForEachRecord | src/DbnParser.cpp:242-264 | the records yielded, the outcome and the bytes left are those of the framing of the remaining bytes, however they arrive; the buffer after a refill is bounded whatever the file size |
| Parser.DbnParser.ForEachInTwo | src/DbnParser.cpp:242-264 | two calls, for a > 0 records and then b more or all, yield what one call would have, however the bytes arrive |
| Parser.OpensIff | src/DbnParser.cpp:170-240 | a file opens if and only if it is the letters DBN, a version from 1 to 3, the length of a header of 100 to 2^32 - 1 bytes, that header storing the metadata, and the records; what is read is what it says |
| Parser.RefusedFor | src/DbnParser.cpp:170-184 | anything else is refused for the first thing wrong with it, a stream's own error before a lack of bytes |
| Parser.OpenFileOf | src/DbnParser.cpp:170-240 | opening an encoded file gives its metadata, and its records start at 8 + length however much of the length the header needs |
| HeaderTheorems.DecodeInvertsEncode | src/DbnParser.cpp:186-236 | decoding inverts encoding for every well-formed header of versions 1 to 3, whatever follows |
| HeaderTheorems.EncodeInvertsDecode | src/DbnParser.cpp:186-236 | whatever the decoder accepts is the encoding of a well-formed header and what follows it |
| HeaderTheorems.MetadataRoundTrip | include/common.h:177-193 | every storable metadata, with absent fields, full-width symbols and nested mappings, survives encoding and decoding |
| HeaderTheorems.DecodedIsStorable | include/common.h:177-193 | only storable metadata is ever decoded |
| HeaderTheorems.FieldsAt | src/DbnParser.cpp:189-215 | where in the header the fixed fields of the metadata are, version by version, and which numbers mean absence |
| HeaderTheorems.HeaderRefusedFor | src/DbnParser.cpp:210-212 | a header is refused for a zero symbol width, for a schema definition, or else because it ends early |
| HeaderTheorems.HeaderNeeds120Bytes | src/DbnParser.cpp:181 | a header that decodes has at least 120 bytes, 20 more than the length check asks for |
| HeaderReader.Cursor.Bytes | src/DbnParser.cpp:266-270 | the cursor gives the next bytes inside the declared length, or ends early |
| HeaderReader.Cursor.ReadText | src/DbnParser.cpp:40-46 | a fixed-width field reads as its C string |
| HeaderReader.ReadHeader | src/DbnParser.cpp:186-236 | the cursor reads refine the parser on values: same metadata, same error |
| HeaderTheorems.CStrIsPrefix | src/DbnParser.cpp:40-46 | the text of a field is its longest prefix without a NUL |
| RowTheorems.RowKeepsBody | src/ParquetWriter.cpp:308-325 | from a row, nulls read back as sentinels and ids reinterpreted unsigned, the wire bytes from the second on are recovered, ts_out included |
| RowTheorems.EqualRowsEqualBodies | src/ParquetWriter.cpp:392-408 | equal rows come from records equal but for the length byte and what lies past the fields |
| Columns.ValueColumn.Finish | src/ParquetWriter.cpp:68-72 | the finished array holds each value set, none null |
| Columns.NullableColumn.Set | src/ParquetWriter.cpp:94-100 | setting a slot appends the value or a null to the column's rows; bitmap, values and null count follow |
| Columns.NullableColumn.Finish | src/ParquetWriter.cpp:102-110 | the finished array reads as the options set; the bitmap is left out exactly when no null was set, and in it the binary digit i % 8 of byte i / 8, from the least, is 0 exactly if slot i is null |
| Columns.MaskIsDigit | src/ParquetWriter.cpp:97 | the bit written for a slot is the binary digit a reader looks at, least-significant first |
| Columns.NullAgree | src/ParquetWriter.cpp:97 | clearing that bit makes the slot null and no other |
| Columns.NullableBatches | src/ParquetWriter.cpp:86-110 | any number of batches through one column still read as set when all are built |
| Columns.CharColumn.Reserve | src/ParquetWriter.cpp:124-135 | the values are new, and the offsets are built anew only to grow |
| Columns.CharColumn.Finish | src/ParquetWriter.cpp:139-145 | with fewer than 2^31 rows every slot selects exactly its byte; with more, slot 2^31 - 1 selects none, because its end offset wraps |
| Columns.CharBatches | src/ParquetWriter.cpp:122-145 | batches share offsets until a larger one needs new ones, and no finished batch changes |
| ColumnLists.Column.Finish | src/ParquetWriter.cpp:68-145 | whatever its kind, a column hands over an array that reads as the cells set, shares nothing with what the column or any other writes, and ends unreserved |
| ColumnLists.ColumnList.Reserve | src/ParquetWriter.cpp:294-306 | every column gets buffers for n rows that no other column has |
| ColumnLists.ColumnList.Set | src/ParquetWriter.cpp:313-322 | every column grows by its own value, and no column disturbs another's buffers |
| ColumnLists.ColumnList.Finish | src/ParquetWriter.cpp:329-341 | the arrays read as the columns' cells and lie outside what the columns write from then on |
| Schemas.MboRawsFit | src/ParquetWriter.cpp:308-325 | the values stored for an mbo record are the cells of its row, column by column, and each lies in the range of its column, 32-bit, 64-bit or a byte, nulls included |
| Schemas.TradeRawsFit | src/ParquetWriter.cpp:392-408 | the same for a trade |
| Schemas.DecodedRowFits | src/ParquetWriter.cpp:15-26 | the row of any record lies in the ranges of its columns, so no widening loses a value |
| Schemas.CellsAreNamed | src/ParquetWriter.cpp:200-301 | every cell of a row is the field that the name of its column names, in the order of the schema |
| Schemas.RowOfCells | src/ParquetWriter.cpp:193-289 | a row can be read back from its cells |
| Builders.Table.Store | src/ParquetWriter.cpp:313-323 | storing a record makes the cells of every column those of one more row |
| Builders.Table.Finish | src/ParquetWriter.cpp:329-345 | the batch of arrays reads as the rows taken since the last one, its buffers are no longer written, and the builder starts over unreserved |
| Builders.MboBuilder.Append | src/ParquetWriter.cpp:308-325 | a record of another type is skipped, a short one throws and changes nothing, any other adds the cells of its row to the columns; there is room |
| Builders.TradesBuilder.Append | src/ParquetWriter.cpp:392-408 | as for mbo, with the trade layout |
| Builders.Batch.RowsRead | src/ParquetWriter.cpp:340-344 | arrays that read as the columns of some rows read as these rows |
| Builders.Batch.ReadsInFullIff | src/ParquetWriter.cpp:139-145 | a batch reads back in full if and only if it has fewer than 2^31 rows |
| Builders.MakeBatchBuilder | src/ParquetWriter.cpp:508-517 | only mbo (0) and trades (4) have a builder, each of its own kind |
| Builders.AppendAndFlush | src/ParquetWriter.cpp:546-559 | a row that fills the batch hands it over and reserves the next; otherwise the batch stays open |
| Builders.BuildBatches | src/ParquetWriter.cpp:546-559 | append on every record and the last flush give batches that, when the last is built, all still read as the partition of the matching rows, whatever was reserved and appended after them; every append finds room; only a short record stops it |
| MappingText.Decimal | src/ParquetWriter.cpp:460 | a number prints as digits, without a leading zero unless it is zero |
| MappingText.DecimalRoundTrip | src/ParquetWriter.cpp:460 | and reads back as itself |
| MappingText.JoinLoop | src/ParquetWriter.cpp:446-453 | the loop of join computes the recursive join |
| MappingText.JoinReadableIff | src/ParquetWriter.cpp:446-453 | a joined list can be split back if and only if no item holds the separator and the first item is not empty |
| MappingText.JoinForgetsEmptyFirst | src/ParquetWriter.cpp:449 | a list and the same list behind an empty item have one text |
| MappingText.FlattenAt | src/ParquetWriter.cpp:456-461 | there is one entry for each interval, and interval j of mapping i stands behind those of the mappings before it |
| MappingText.WriteMappings | src/ParquetWriter.cpp:456-462 | the nested loops write the entries of all intervals, in order, joined by semicolons |
| MappingText.EntriesReadableIff | src/ParquetWriter.cpp:454-462 | any entries can be parsed back if and only if no symbol holds ';' and no raw symbol ';' or '='; '-' and '@' do no harm |
| MappingText.MappingsRoundTrip | src/ParquetWriter.cpp:454-462 | the same of the mappings, where one without a date range does not count |
| MappingText.EqualsIsAmbiguous | src/ParquetWriter.cpp:460 | with '=' in a raw symbol two different entries have one text |
| MappingText.SemicolonIsAmbiguous | src/ParquetWriter.cpp:459-460 | with ';' in a symbol one entry and two entries have one text |
| Jobs.PeakMemory | src/ParquetWriter.cpp:501-506 | the estimate with 64-bit wrap-around is the true one if and only if that is below 2^64 |
| Jobs.RowFitsIff | src/ParquetWriter.cpp:38-39 | values and validity bits of a row fit in 80 bytes in every schema but mbo with ts_out, and in that not |
| Jobs.EstimateCoversLiveRows | src/ParquetWriter.cpp:501-506 | in every schema but that one, the values and validity bits of all rows alive stay within the estimate less its fixed part, in every reachable state, and from 32 rows a batch on the offsets do as well |
| Jobs.EstimateCoversIff | src/ParquetWriter.cpp:501-506 | for every batch size, the estimate covers the rows of every run if and only if the schema is not mbo with ts_out |
| Jobs.AutoJobs | src/DbnParser.cpp:109-121 | between one job and the number of files; more than one only within half the cores and 60% of the memory, in whole tenths; as many as these allow; the division traps if and only if the estimate wrapped to zero |
| Jobs.JobsFitIff | src/DbnParser.cpp:117-118 | more than one job fits the memory by the true estimate if and only if the estimate does not wrap |
| Jobs.PeakMemoryCanBeZero | src/ParquetWriter.cpp:501-506 | a positive batch size whose estimate wraps to zero |
| Jobs.ExplicitJobs | src/DbnParser.cpp:346 | an explicit count is held between one and the number of files |
| Commit.PathsDistinct | src/DbnParser.cpp:327-330 | different inputs have different outputs and temporary files, and no output is a temporary file |
| Commit.OutputsAlwaysWhole | src/DbnParser.cpp:284-299 | at every step of every interleaving of the workers, each output is what it was before or the file its input's conversion returned with |
| Commit.EveryInputOnce | src/DbnParser.cpp:319-353 | when the workers are done, every input was done with, the counter stands at files + jobs, the failures are counted, and every success has its output |
| Commit.SuccessIff | src/DbnParser.cpp:331-340 | an input done with ended as a success if and only if its conversion returned and opening, renaming and reporting all went well |
| Commit.FailedIsFailing | src/DbnParser.cpp:337-353 | when the workers are done, the failures counted are the inputs whose conversion threw or one of those steps failed |
| Commit.GoodRun | src/DbnParser.cpp:319-353 | when the file system never fails, exactly the conversions that throw are counted, all others have their new output, and no temporary file is left |
| Commit.NoTemporaryFileLeft | src/DbnParser.cpp:284-297 | an input done with leaves no temporary file, also when opening failed half way or the conversion threw, unless it failed before opening or a removal or rename failed |
| Commit.FailedRenameKeepsBoth | src/DbnParser.cpp:297 | a rename that fails leaves the complete file under its temporary name and the output as it was, whatever comes after |
| Commit.RemovedIsGone | src/DbnParser.cpp:292-295 | a conversion that threw and whose file could be removed leaves none, and the output as it was |
| Commit.EarlyFailureTouchesNothing | src/DbnParser.cpp:276-287 | a failure before the file is open leaves both paths as they were before the run |
| Commit.StepReducesWork | src/DbnParser.cpp:322-343 | every step of a worker reduces a measure of the work left, however the step goes, until it exits |
| Commit.FairRunsEnd | src/DbnParser.cpp:319-353 | any schedule that keeps running all workers ends with all of them exited, every input done with and every success in its place, in rounds linear in the inputs |
| Commit.OwnersStay | src/DbnParser.cpp:324 | an input once fetched by a worker is never fetched by another |
| Commit.NewOutputIff | src/DbnParser.cpp:297-340 | an input done with has its new output if it ended as a success or only its report failed, and otherwise its output is untouched |
| Commit.FailureWithOutput | src/DbnParser.cpp:331-340 | a file can be counted as failed although its output is complete, when reading the input's size throws |
| Trees.OutputsHoldTheirRecords | src/DbnParser.cpp:284-299 | at every step of every run of the workers, an output that is not as before holds the decoded records of its own input, cut into full batches, footer written |
| Backplay.ReadFully | src/Backplayer.cpp:92-105 | the bytes read are the next of the stream however it is fragmented and interrupted; fewer only at its end; an error only when it breaks |
| Backplay.ClosedAtStepIff | src/Backplayer.cpp:217-227 | a stream without its end marker is accepted if and only if it closes at a step of the decoder, all bytes consumed |
| Backplay.ServeFeeds | src/Backplayer.cpp:214-228 | serving gives the decoder the stream from the front in the sizes it asks for, emits all it emits on them, and stops where the decoder ends or where fewer bytes are left than it needs, as the connection closes or breaks |
| Backplay.CloseInsideMessagePasses | src/Backplayer.cpp:217-223 | with a decoder that takes a message in two steps, a close after the first step is accepted inside the message |
| Backplay.Listener.OnRecordBatchDecoded | src/Backplayer.cpp:124-134 | counts stay those of the batches received, and a line is printed exactly when the rows reach or pass a multiple of 10,000,000 |
| Backplay.DecodeStep | src/Backplayer.cpp:217-227 | one round gives the decoder the next buffer of serving the whole stream, and goes on or ends as that does |
| Backplay.Decode | src/Backplayer.cpp:214-228 | the buffers given to the decoder, batches, rows, progress lines and outcome are those of serving the stream's bytes in one piece |
| Player.BatchesConserved | src/Backplayer.cpp:230-247 | batches played, in hand, queued and being pushed are the batches received, in order; at most queue depth + 2 are alive |
| Player.JoinedPlayedEverything | src/Backplayer.cpp:193-208 | a joined player has played and counted every batch received, whether run() returned or threw |
| Player.PlaysTheStream | src/Backplayer.cpp:193-247 | what is played is what serving the connection's bytes emits, for every queue depth and interleaving |
| Player.RunConnection | src/Backplayer.cpp:193-247 | the same from the socket on, for every way the bytes arrive, with run() returning or throwing as the stream ends |
| Player.Reached | src/Backplayer.cpp:193-247 | every state of every interleaving satisfies the control and flow invariants |
| Player.StepReducesWork | src/Backplayer.cpp:193-247 | every step that is not a poll reduces a measure of the work left |
| Player.PollsIff | src/Backplayer.cpp:230-243 | a thread waits only with a full queue to push to, an empty one to pop from, or a live player to join |
| Player.NoDeadlock | src/Backplayer.cpp:230-247 | in every reachable unfinished state one thread has a step that is not a poll |
| Player.FairRunsEnd | src/Backplayer.cpp:154-208 | any schedule that keeps running both threads joins the player |

## Where the code and its documentation differ

- README.md:76 of the repository calls a close inside a message an error. The code accepts a close at any step of the Arrow decoder, so also between a message's metadata and its body (`Backplay.CloseInsideMessagePasses`); the model follows the code.
- README.md:94 promises one row per DBN record. A record of another type than the schema's is skipped (`Pipeline.RecordWithoutRow`); the promise holds exactly if there is none (`Pipeline.ReturnedRowsAreRecordsIff`).
- README.md:61 calls an existing output complete or absent. It may also be the one from before the run, when a conversion fails or has not finished.
- src/ParquetWriter.cpp:38 reckons with 80 bytes a row, for mbo as the widest. An mbo row's values and validity bits take 628 bits, but 693 with `ts_out`, which is more (`Jobs.RowFitsIff`); trades fits either way. A full queue of such rows exceeds the estimate less its fixed part (`Jobs.EstimateCoversIff`).

## Left out

- Columns.CharColumn.Finish: nothing is promised about the slots past 2^31 - 1, whose offsets have wrapped; that they occur is stated.
- Builders.Table.Store: the columns of a builder are one list in the order of the schema, first those both schemas share, gone through in a loop, where the code has a member for each column or group and names the calls one by one.
- Jobs.EstimateCoversLiveRows: counts values, validity bits and offsets. The offsets are one buffer a text column, shared by its batches, not one a batch. Padding and growth of Arrow's buffers, and a bitmap kept beside a finished one, are not counted.
- Backplay.ClosedAtStepIff: speaks of decoder steps, not of messages, for the reason given above.
- WriterTheorems.FailureIsFinal: is about the first close() of a writer; a second one is the subject of SecondClose.
- Calls made on a writer after append() or close() threw, other than a second close(): convert_file makes none.
- A throw in the writer's constructor, before its thread exists.
- Failed allocations: in the writer machine they are throws in flush(); inside a column, reserving succeeds. Reserving vectors from declared counts has no effect on results.
- zstd, `fread` and file handles: a stream is a sequence of decompressor results and an end. Byte positions in header errors are left out.
- Arrow and Parquet encoding, row-group internals, writer properties and the thread pool: a write adds a row group or fails.
- Arrow IPC decoding: an abstract machine that says how many bytes it takes next and emits batches. It may take steps that need no bytes, but not forever.
- Sockets, name resolution, the command line, log text and timings; memory files are an optional number.
- The names of schemas and symbology types, and field lists.
- Overflow of the 64-bit row and record counters.
- Symbolic links, and clashes between file and directory names: paths are lexical.
- `ZMQServer.h`, an empty class. `nlib` is not part of this model beyond the assumptions above.
