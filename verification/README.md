# Verification of the NCF key-value cache, container and GGUF slicing

This project models three parts of the repository and proves what they are for.

**The append-only cache (ncf-kvcache).** A writer deals frames out to one buffer per
(layer, head), cuts the buffers into blocks of 64 tokens and sends them to a background worker.
The worker appends payloads, an index block and a trailer, and publishes the new token count and
the new head only if no truncate has bumped the epoch since the block was queued. Reopening walks
the trailers backwards, rebuilds the index and reloads a partial last block. `KvProtocol` states
all of this as functions on one state (file, buffers, counters, queue, worker, a truncate between
its two halves), so that a run is any interleaving of calls and atomic worker steps; `KvWriter`
has the classes and loops of the program, each method proved to do what the function of the same
name says. The specification is a log of frames. The main results are `KvRefinement.CacheRefinesLog`
(what is left after any number of sessions) and `KvReaders.ReadersSeePrefixes` (what readers see
meanwhile).

**The container (ncf-io, ncf-core).** `finalize` computes all offsets in several passes and emits
the file in another; the reader finds a chunk by two paths. `NcfWriter` and `NcfReader` have the
program with its loops and lazy cells; `NcfLayout`, `NcfOffsets` and `NcfVerify` the results.

**GGUF slicing (ncf-convert).** `Gguf` has the sort, the binary search, the slicing and the
saturating size check.

The files: `Bytes` (words, slices), `Cbor`; `KvHeader`, `KvIndex`, `KvReader`, `KvProtocol`,
`KvWriter`; `KvCalls`, `KvTruncate` (what each call answers in every state); `KvChains`, `KvTokens`,
`KvIds`, `KvCounts` (what every interleaving keeps), `KvLog`,
`KvSession`, `KvReadback`, `KvRefinement`, `KvReaders` (the refinement), `KvPosition`, `KvOverlap`,
`KvExact`, `KvTrailers` (its guards are exact), `KvCborIndex`; `NcfFormat`, `NcfWriter`, `NcfReader`,
`NcfLayout`, `NcfWritten`, `NcfOffsets`, `NcfCborSchemas`, `NcfOpening`, `NcfVerify`, `NcfAnswers`; `Gguf`.

## How the model relates to the program

- The worker's publish is not one step: the epoch check, the load of the count, the store of the
  count and the store of the head are separate steps, and calls may fall between any two of them.
  Appending a whole batch to the file is one step; nothing reads those bytes before the head
  points at them. `flush_block` (reads of head and epoch, then send) is one step; between its two
  reads only the worker could act, which handles batches in order, and the epoch is changed by the
  writer alone, so that sending at the first read makes no difference. `truncate` is two
  steps, split after the epoch bump.
- The guards of the refinement (`KvRefinement.Allowed`) are conditions a caller can check before a
  call; the program does not check them: a flush finds the worker idle; a frame is appended only
  while the local count is 64 times the pending block plus the buffered count; truncate of pending
  tokens finds nothing in flight; truncate of committed tokens finds nothing buffered, is not made
  in the middle of a publish, and cuts at a multiple of 64 or not at all. Each is exact for what it
  buys. Frames appended to a new cache read back if and only if every flush found the worker idle
  (`KvOverlap.AppendsReadIffIdle`; one block too many is enough, `KvOverlap.BurstReadsIffOneBlock`),
  because a flush over work in flight hides it (`KvOverlap.FlushHidesFlight`). In every quiet state
  that stands for a log the next frames read back if and only if the writer is in position
  (`KvPosition.AppendReadsIffInPosition`), which a flush of a partly filled block and a rollback
  lose (`KvPosition.AppendAfterFlushIffAligned`, `KvPosition.AppendAfterRollbackIffInPlace`,
  `KvSession.PositionKeptIff`). A truncate conserves tokens if and only if it is safe
  (`KvTokens.TruncateConservesIffSafe`), its fence holds if and only if it is not made in the middle
  of a publish (`KvTokens.EpochFence`), and appending after a rollback and a reopening reads back if
  and only if the cut was clean (`KvExact.RollbackReadsIffClean`). Chains, ids, snapshots and
  lockstep need no guard. A session that only appends meets them all if every flush finds the worker
  idle (`KvRefinement.PatientIsWellUsed`); the program has no call to wait for that.
- Counters and file offsets are assumed to stay below 2^64 (`Room`, `IdRoom`); the wrapping and
  saturating operators of the program are written out. `drop_tokens as u32` is a remainder by 2^32.
- The CBOR library is a codec parameter assumed to read back what it wrote; `KvCborIndex` gives a
  concrete one for index blocks. Compression, hashes and the NCF header and index codecs are
  functions of `Codecs`; schemas are concrete CBOR in `NcfOffsets` and `NcfCborSchemas`.
- `usize` is 64 bits wide. A Rust panic is the error `Panic` or the outcome `OutOfRange`.

## Where code and documentation disagree

- The comment at `ncf-io/src/writer.rs:203-204` calls size variations of the schema block
  acceptable, and the tests at `ncf-io/src/roundtrip_tests.rs:84-140` expect payloads to be read
  back. In the code the recorded offsets miss the chunks whenever there is a tensor
  (`NcfOffsets.OffsetsRightIffEmpty`, `NcfOffsets.SingleTensorUnreadable`); the model follows the code.
- `finalize` accepts files whose schemas and chunks together exceed 256 MiB, but `open` rejects them
  (`NcfLayout.OpensIffSchemaAreaFits`).
- A compressed payload that happens to keep its length is flagged uncompressed and cannot be read
  even where its reference is right (`NcfLayout.MovedReferenceReads`).

## Model

| member | source | states |
|---|---|---|
| `KvHeader.Encode` | ncf-kvcache/src/header.rs:102-117 | the 64-byte array filled in place holds every field, little-endian, back to back at the documented offsets |
| `KvHeader.DecodeEncoded` | ncf-kvcache/src/header.rs:119-183 | decoding an encoded header gives it back, whatever bytes follow it in the file |
| `KvHeader.StoresAreFieldUpdates` | ncf-kvcache/src/writer.rs:204-226 | a store through the raw offsets 32, 40 or 48 changes exactly the field commit_epoch, valid_token_count or index_head_offset of the decoded header; appended bytes change no field |
| `KvHeader.FixedFieldsStay` | ncf-kvcache/src/header.rs:119-183 | in a file that keeps all bytes but header offsets 32-55, every other header field decodes as before |
| `Bytes.LittleEndian` | ncf-kvcache/src/header.rs:119-183 | two, four and eight bytes are read least significant byte first |
| `KvIndex.EncodeTrailer` | ncf-kvcache/src/index.rs:82-88 | the 24-byte trailer filled in place is magic, CBOR length, previous offset |
| `KvIndex.TrailerRoundTrip` | ncf-kvcache/src/index.rs:80-113 | trailers and 24-byte strings correspond one to one, in both directions |
| `KvIndex.KvcacheIndex.InsertEntries` | ncf-kvcache/src/index.rs:45-51 | the map after inserting is the old one with later entries replacing earlier ones, and next_chunk_id is raised over every id (wrapping) |
| `KvIndex.FindLastIsLast` | ncf-kvcache/src/index.rs:45-51 | an entry is found for a key if and only if it stands at the last position of the block that carries the key |
| `KvIndex.BuildMapIsLookup` | ncf-kvcache/src/reader.rs:78-112 | inserting blocks oldest first with last insert wins equals searching the chain newest first, last entry first inside a block |
| `KvIndex.BuildNextIdIsMax` | ncf-kvcache/src/index.rs:45-51 | without wrap-around the rebuilt next_chunk_id is one more than the largest id in the chain, or 0 for an empty chain |
| `KvIndex.RaisesToLargest` | ncf-kvcache/src/index.rs:45-51 | wrap-around included, next_chunk_id becomes the largest of its old value and each id plus one modulo 2^64 |
| `KvCborIndex.IndexCodecIsLawful` | ncf-kvcache/src/index.rs:5-32 | index blocks written in CBOR as maps with these field names decode to themselves, so the codec assumption of the other results is met |
| `KvCborIndex.EntryWritten` | ncf-kvcache/src/index.rs:5-21 | an entry is written as a map of seven numbers under the serializer's field names, in declaration order |
| `KvCborIndex.BlockWritten` | ncf-kvcache/src/index.rs:23-32 | a block is written as a map of predecessor, block index and entries |
| `Cbor.RoundTrip` | ncf-kvcache/src/writer.rs:271-272 | decoding an encoded CBOR item gives it back and stops right behind it, whatever follows (RFC 8949, section 3, definite lengths, shortest integers) |
| `Cbor.ShortestHead` | ncf-kvcache/src/writer.rs:271-272 | heads are in their shortest form: major type in the top three bits, argument inside or in one, two, four or eight bytes behind, most significant first |
| `Cbor.Majors` | ncf-kvcache/src/writer.rs:271-272 | numbers, texts, arrays and maps carry major types 0, 3, 4 and 5 with value, byte length, item count and pair count |
| `KvReader.WalkStable` | ncf-kvcache/src/reader.rs:81-105 | a walk along the trailers that ends within m steps ends the same way with any larger allowance |
| `KvReader.FollowsIffGood` | ncf-kvcache/src/reader.rs:81-104 | a trailer is followed if and only if its 24 bytes are in the file, begin with KVCFTR!!, give a length not above its offset, and the bytes of that length before it decode; the result is that block and the offset in the last eight bytes, and a bad trailer is reported as layout error, overflow or CBOR error according to what is wrong first |
| `KvReader.WalkGoes` | ncf-kvcache/src/reader.rs:78-112 | the walk ends at 0, stops with the error of the first bad trailer, or takes the block and goes on at the named predecessor |
| `KvReader.ReconstructIndex` | ncf-kvcache/src/reader.rs:78-112 | whenever the walk ends: the loop terminates, succeeds exactly when no trailer on the walk is bad, reports that trailer's error otherwise, and returns map and next id of the walked blocks inserted oldest first |
| `KvReader.LinkedWalks` | ncf-kvcache/src/reader.rs:78-112 | on a chain whose offsets strictly decrease the walk finishes within head-offset many steps, meets no error, and collects exactly the chain |
| `KvReader.ChainStays` | ncf-kvcache/src/reader.rs:78-112 | appending to the file and storing header words never disturb a chain that was readable before |
| `KvReader.ChainEntriesInside` | ncf-kvcache/src/reader.rs:175-183 | the entry found for a key on a well-formed chain carries that key and lies between the payload offset and the trailer |
| `KvReader.OpenReader` | ncf-kvcache/src/reader.rs:39-76 | opening yields the header, the rebuilt index, the payload offset behind the metadata and the mapped length, or the first error met |
| `KvReader.OpensIff` | ncf-kvcache/src/reader.rs:39-76 | a file opens if and only if it has 64 bytes beginning with NCFKVCCH, its metadata block is inside the file, and the walk from the offset at byte 48 ends well; short files, wrong magic and long metadata are layout errors |
| `KvProtocol.ColumnOf` | ncf-kvcache/src/writer.rs:117-122 | layer times heads plus head numbers the columns: every pair gets a column in range, and the pair is recovered from it |
| `KvProtocol.Settle` | ncf-kvcache/src/writer.rs:399-412 | draining the worker ends with an empty queue and an idle worker |
| `KvChains.RunExtends` | ncf-kvcache/src/writer.rs:252-299 | no run of calls and worker steps changes a file byte outside header offsets 32-55, and files never shrink |
| `KvChains.SnapshotReads` | ncf-kvcache/src/reader.rs:175-183 | block_bytes of a reader opened before a run returns the same after it: appends, truncates and rewrites included |
| `KvChains.RunLockstep` | ncf-kvcache/src/writer.rs:316-326 | in every run, under any schedule, all columns agree on block, token count and reloaded count, stay below 64 tokens, and hold token_count times element_bytes bytes |
| `KvChains.RunTags` | ncf-kvcache/src/writer.rs:346-459 | layers, heads, block indices and counts of the columns stay equal in every run even when a rollback has cut a reloaded block short |
| `KvChains.AppendedLink` | ncf-kvcache/src/writer.rs:252-281 | the trailer just written reads back as the block just written, with its start and its predecessor |
| `KvChains.AppendedChain` | ncf-kvcache/src/writer.rs:252-281 | the chain from the new trailer is the new block on top of its predecessor's chain |
| `KvChains.StepChains` | ncf-kvcache/src/writer.rs:252-459 | one call or worker step keeps head, queued predecessors and the unpublished trailer well formed |
| `KvChains.RunChains` | ncf-kvcache/src/writer.rs:252-459 | no guard: in every reachable state the head is 0 or a valid trailer above strictly smaller valid ones, and so is everything queued; reopening there ends and meets no error |
| `KvTokens.FencedSteps` | ncf-kvcache/src/writer.rs:285-301 | while every queued or written batch carries an outdated epoch, no number of worker steps changes epoch, valid count or head |
| `KvTokens.EpochFence` | ncf-kvcache/src/writer.rs:423-433 | after truncate's epoch bump no schedule of the worker changes the valid count or the head, if and only if the bump did not land between the worker's epoch check and its last store |
| `KvTokens.MidPublishLeaks` | ncf-kvcache/src/writer.rs:288-299 | a batch past its epoch check does publish its trailer as the head, whatever truncate did meanwhile |
| `KvTokens.TruncateThenDrain` | ncf-kvcache/src/writer.rs:415-459 | worker steps inside and after a truncate leave published state and buffers as if the truncate had run alone |
| `KvTruncate.TruncateAnswers` | ncf-kvcache/src/writer.rs:415-459 | for every state and any worker steps between the halves: out of range nothing changes; otherwise the epoch rises by one (wrapping), and with the committed count found then, count at or below it lowers it, a higher one succeeds if and only if (local - count) mod 2^32 tokens are still buffered and then takes exactly these out of every buffer, and otherwise the answer is Overflow with counts and buffers unchanged |
| `KvTruncate.TrimsIffBuffered` | ncf-kvcache/src/writer.rs:435-458 | the same for the second half alone, whatever is in flight |
| `KvTruncate.StaleStoreUndoesRollback` | ncf-kvcache/src/writer.rs:291-298 | a rollback that falls between the worker's load of the count and its store is undone: the store adds to the loaded count, not to the lowered one |
| `KvTokens.TrimIsExact` | ncf-kvcache/src/writer.rs:435-458 | truncating pending tokens: none of the checked subtractions fails, exactly the unwanted tokens leave, and the min leaves existing_tokens unchanged; also with reloaded tokens, and with buffers longer than their counts say |
| `KvTokens.TrimmedData` | ncf-kvcache/src/writer.rs:451-455 | every column keeps exactly the prefix of its data that belongs to the kept tokens |
| `KvTokens.RunConserves` | ncf-kvcache/src/writer.rs:288-459 | valid plus promised plus buffered tokens equals the local count over every interleaving in which truncate is called when safe, whatever the buffers hold |
| `KvTokens.RunPromisesReset` | ncf-kvcache/src/writer.rs:346-397 | in such a run tokens are only in flight while the buffers hold no reloaded ones |
| `KvTokens.ClosePublishesAll` | ncf-kvcache/src/writer.rs:472-480 | hence dropping the writer publishes exactly the local count, whatever was still in flight |
| `KvTokens.TruncateConservesIffSafe` | ncf-kvcache/src/writer.rs:415-459 | unless the worker is between its epoch check and its store of the count, tokens are conserved across a truncate if and only if nothing is promised (count above committed) or nothing is buffered (count at or below committed) |
| `KvTokens.UnsafeTruncateLoses` | ncf-kvcache/src/writer.rs:429-458 | every unsafe truncate breaks the accounting |
| `KvCounts.ReopenedAccounts` | ncf-kvcache/src/writer.rs:138-202 | every successful reopening of a file with a readable, rising chain starts with its tokens accounted for, also where an earlier rollback cut inside a block |
| `KvCounts.SessionCounts` | ncf-kvcache/src/writer.rs:138-480 | open, any schedule with safe truncates, drop: the file's valid count is what the accepted appends and truncates make of the count found at open |
| `KvCounts.SessionsConserve` | ncf-kvcache/src/writer.rs:81-480 | from creation through any number of such sessions the valid count is that of the calls: no token is lost or counted twice |
| `KvLog.ColumnDataAt` | ncf-kvcache/src/writer.rs:316-320 | token t of a column buffer is that column's cell of frame t |
| `KvLog.HitsInside` | ncf-kvcache/src/reader.rs:175-183 | on a well-formed file the newest entry of any key lies inside the file, so no slice is out of range |
| `KvLog.FaithfulStays` | ncf-kvcache/src/writer.rs:252-299 | appended bytes and epoch changes do not change the log a file stands for |
| `KvLog.FaithfulShortened` | ncf-kvcache/src/writer.rs:429-433 | lowering the count to a multiple of 64, or not at all, makes the file stand for that prefix of the log |
| `KvLog.SettleOne` | ncf-kvcache/src/writer.rs:252-304 | an idle worker given one batch publishes it in five steps |
| `KvLog.FlushedChain` | ncf-kvcache/src/writer.rs:252-304 | a completed flush counts exactly the new tokens and puts one block on top of the chain |
| `KvLog.FlushedStore` | ncf-kvcache/src/writer.rs:346-397 | after a completed flush each column's pending block holds exactly the buffered bytes and every other block is as before |
| `KvLog.FlushedEntry` | ncf-kvcache/src/writer.rs:346-381 | after a completed flush, each column's key of the pending block finds an entry with chunk id next_chunk_id plus the column's number (wrapping), the column's layer and head, the block index, the flushed token count, and the place and length of the flushed bytes; every other key finds what it found before |
| `KvLog.FlushedTop` | ncf-kvcache/src/writer.rs:265-269 | the new index block names the pending block and the head it was put on, has one entry per column, and lies on top of the old chain |
| `KvSession.PositionKeptIff` | ncf-kvcache/src/writer.rs:387-390 | local count equals 64 times pending_block_idx plus token_count is kept by every step, if and only if it is not the flush of a partly filled block or the rollback of committed tokens |
| `KvSession.RunKeepsPosition` | ncf-kvcache/src/writer.rs:307-459 | hence it holds throughout every run without those two, under any schedule |
| `KvCalls.AppendAnswers` | ncf-kvcache/src/writer.rs:307-329 | append_frame in every state: a frame of the wrong size changes nothing; any other gives each column its own bytes and one token, counts one (saturating), and hands the block over at 64 |
| `KvCalls.FlushAnswers` | ncf-kvcache/src/writer.rs:346-397 | flush_pending in every state: nothing for empty buffers; otherwise one batch with the buffers' bytes, labels, counts, consecutive chunk ids, epoch and head joins the queue, and buffers and counters move on to the next block |
| `KvSession.FlushIsFaithful` | ncf-kvcache/src/writer.rs:346-397 | a completed flush makes the file stand for the whole log: old blocks kept, a rewritten partial block superseded |
| `KvSession.SettleBuffered` | ncf-kvcache/src/writer.rs:307-322 | buffering a frame commutes with the worker |
| `KvSession.FollowsWorker` | ncf-kvcache/src/writer.rs:228-304 | a worker step at any point keeps the writer in agreement with its log |
| `KvSession.FollowsAppend` | ncf-kvcache/src/writer.rs:307-329 | append_frame adds its frame to the log, also when it fills and flushes the block |
| `KvSession.TracksTrim` | ncf-kvcache/src/writer.rs:435-458 | truncating pending tokens succeeds, makes the log its first count frames and every buffer the matching suffix |
| `KvSession.FollowsRollback` | ncf-kvcache/src/writer.rs:423-433 | rolling back to a block boundary succeeds and makes the log its first count frames, with a batch in flight fenced off |
| `KvReadback.ReaderOpens` | ncf-kvcache/src/reader.rs:39-76 | a well-formed file opens, and the reader's map and next id are those of the chain from the head |
| `KvReadback.BlockBytesIsStored` | ncf-kvcache/src/reader.rs:175-183 | block_bytes of a fresh reader is the newest payload stored for the key, nothing exactly if there is none, never a panic |
| `KvReadback.TokenInBlock` | ncf-kvcache/src/reader.rs:185-202 | token_bytes reads token t from block t/64 at (t mod 64) times element_bytes of its newest payload |
| `KvReadback.ReadsBack` | ncf-kvcache/src/reader.rs:185-202 | a fresh reader of a file that stands for a log counts its frames and returns each cell of each frame, and nothing for a token beyond |
| `KvReadback.BlocksCounted` | ncf-kvcache/src/reader.rs:167-173 | block_token_count of a fresh reader of a file that stands for a log is min(64, frames - 64 b) for every block b of the log |
| `KvReadback.BlockCountIsTally` | ncf-kvcache/src/reader.rs:167-173 | on every readable file block_token_count is the count in the newest entry of the key, nothing if there is none |
| `KvReadback.TokenAnswers` | ncf-kvcache/src/reader.rs:185-202 | on every readable file token_bytes finds nothing at or above the visible count or without an entry, and otherwise the bytes at the token's place behind the newest entry's offset, wherever that entry ends |
| `KvReadback.CellsMakeFrame` | ncf-kvcache/src/writer.rs:316-320 | gathering a frame's cells in (layer, head) order rebuilds the frame |
| `KvReadback.PendingIsQuotient` | ncf-kvcache/src/writer.rs:147-157 | open's two-case computation of the pending block is committed divided by 64 |
| `KvReadback.OpenFinds` | ncf-kvcache/src/writer.rs:138-202 | reopening reloads exactly the stored bytes of a partial last block, at the committed count |
| `KvReadback.OpensForWritingIff` | ncf-kvcache/src/writer.rs:171-189 | a readable file reopens for writing if and only if its last block is full or stored for every column; otherwise a layout error |
| `KvReadback.OpenFollows` | ncf-kvcache/src/writer.rs:138-202 | reopening a file that stands for a log resumes that log, in position |
| `KvReadback.CreateFollows` | ncf-kvcache/src/writer.rs:81-135 | a new cache stands for the empty log |
| `KvReadback.CreatedFile` | ncf-kvcache/src/writer.rs:81-100 | create writes version 1, flags 1, block size 64, the configuration, zero epoch, count and head, and the metadata right behind the header, nothing else |
| `KvReadback.CreatedWriter` | ncf-kvcache/src/writer.rs:117-135 | column layer times heads plus head is that pair's empty buffer; all counters are 0 |
| `KvRefinement.RunSimulates` | ncf-kvcache/src/writer.rs:307-459 | every guarded run, under any schedule of the worker, takes the log to what its calls make of it; also between the halves of a truncate |
| `KvRefinement.RollbackCommutes` | ncf-kvcache/src/writer.rs:423-433 | fenced worker steps commute with the second half of a rollback |
| `KvRefinement.CloseIsFaithful` | ncf-kvcache/src/writer.rs:472-480 | dropping the writer leaves a file that stands for its log |
| `KvRefinement.SessionRefines` | ncf-kvcache/src/writer.rs:138-480 | open, any guarded schedule, drop: the file left stands for the log the calls make |
| `KvRefinement.CacheRefinesLog` | ncf-kvcache/src/writer.rs:81-480 | from creation through any number of sessions (appending, re-publishing a partial block, truncating pending or committed tokens) a fresh reader returns exactly the frames of the abstract log and counts its tokens, in all and for each block |
| `KvReaders.ReadersSeePrefixes` | ncf-kvcache/src/reader.rs:39-76 | a reader opened at any moment of a guarded session, truncates in progress included, finds exactly the published prefix of the log and its counts, in all and for each block, during a truncate that of the log before it; only the moment between the worker's two stores is left to the next row |
| `KvReaders.ReadersInTheGap` | ncf-kvcache/src/writer.rs:295-299 | between the two stores every token published before reads as before; and if the batch added no tokens, or added them to a block never stored before, the counted prefix reads back if and only if it added none |
| `KvRefinement.PatientIsWellUsed` | ncf-kvcache/src/writer.rs:307-397 | appending alone never leaves the position the next append needs, so a session of appends meets all guards if every flush finds the worker idle |
| `KvOverlap.FlushHidesFlight` | ncf-kvcache/src/writer.rs:352-353 | every flush over work of the current epoch in flight hides it: once all is written, each other block reads as it did in the file that the flush found, whatever was in flight for it |
| `KvOverlap.AppendsReadIffIdle` | ncf-kvcache/src/writer.rs:307-480 | frames appended to a new cache, under any schedule of the worker, read back if and only if every flush, the closing one included, found the worker idle |
| `KvOverlap.BurstReadsIffOneBlock` | ncf-kvcache/src/writer.rs:307-480 | so frames appended before the worker gets a turn read back if and only if there are at most 64 of them |
| `KvRefinement.ScheduleIndependent` | ncf-kvcache/src/writer.rs:228-397 | with idle flushes every interleaving settles in the same state, file bytes included, as the run in which the worker finishes after each call |
| `KvIds.RunIds` | ncf-kvcache/src/writer.rs:357-371 | chunk ids that are or may become reachable rise from oldest to newest below next_chunk_id, over every interleaving, fenced-off batches included |
| `KvIds.SessionsKeepChains` | ncf-kvcache/src/writer.rs:81-480 | no guard, any number of sessions: the file stays readable, the walk ends without error, and the ids it reaches strictly increase from the oldest entry to the newest |
| `KvIds.RisesToNext` | ncf-kvcache/src/writer.rs:158-158 | the next_chunk_id computed at open lies above every reachable id |
| `KvIds.CreatedIsSound` | ncf-kvcache/src/writer.rs:81-135 | a new cache satisfies everything the run invariants start from |
| `KvIds.ReopenedIsSound` | ncf-kvcache/src/writer.rs:138-202 | so does every reopening of a file that stands for a log and has rising ids |
| `KvExact.HeadRises` | ncf-kvcache/src/writer.rs:288-299 | draining never moves the head back, and leaves it in place exactly when everything in flight is fenced |
| `KvExact.FlushKeepsIndexIffIdle` | ncf-kvcache/src/writer.rs:352-353 | the flushed block ends up on top of every trailer otherwise published, if and only if nothing of the current epoch was in flight when flush read the head |
| `KvTrailers.ReachesAllIffInOrder` | ncf-kvcache/src/writer.rs:288-299 | after any run the trailers reachable from the head are exactly those ever published, newest first, if and only if each was published on top of the head it names |
| `KvTrailers.FencedFlushesReachAll` | ncf-kvcache/src/writer.rs:346-397 | which is so in every run, truncates and rollbacks included, whose flushes found nothing of the current epoch in flight |
| `KvTrailers.GuardedFlushesFenced` | ncf-kvcache/src/writer.rs:307-459 | as guarded sessions do |
| `KvPosition.AppendReadsIffInPosition` | ncf-kvcache/src/reader.rs:185-202 | in every quiet state that stands for a log: every next frame, once the writer is closed, reads back behind the log if and only if the local count is 64 times the pending block plus the buffered count |
| `KvPosition.MisplacedAppendFails` | ncf-kvcache/src/reader.rs:185-202 | out of position some next frame does not read back: the next token reads as an old byte, or the new one in the place of an earlier token |
| `KvPosition.AppendAfterFlushIffAligned` | ncf-kvcache/src/writer.rs:387-390 | flush, append, close: every such frame reads back if and only if the flush came on a block boundary |
| `KvPosition.AppendAfterRollbackIffInPlace` | ncf-kvcache/src/writer.rs:423-433 | roll back committed tokens and append in the same session: every such frame reads back if and only if the count cut to is where the buffers continue, that is, for a writer in position, if nothing was removed |
| `KvExact.CutInsideBlock` | ncf-kvcache/src/writer.rs:429-433 | after a rollback that cuts inside a block, some next frame reads back as the frame that was cut away |
| `KvExact.RollbackReadsIffClean` | ncf-kvcache/src/writer.rs:415-433 | roll back, close, reopen, append, close: every such frame reads back behind the kept prefix if and only if the cut was on a block boundary or removed nothing |
| `KvExact.CountRunsAhead` | ncf-kvcache/src/writer.rs:295-299 | between the two stores a reader opened just then counts the first frame of a new cache and does not find it |
| `KvWriter.ColumnBuffer.AppendToken` | ncf-kvcache/src/writer.rs:37-40 | appends the token's bytes and counts it |
| `KvWriter.ColumnBuffer.Reset` | ncf-kvcache/src/writer.rs:42-48 | empties the buffer, clears both counts, moves to the next block (wrapping) |
| `KvWriter.FlushWorker.AppendToFile` | ncf-kvcache/src/writer.rs:252-282 | payloads, index block and trailer are appended in place exactly as the specification of write_batch says, and the trailer's offset is returned |
| `KvWriter.FlushWorker.Advance` | ncf-kvcache/src/writer.rs:238-304 | one atomic access of the worker is the specified step |
| `KvWriter.FlushWorker.FlushLoop` | ncf-kvcache/src/writer.rs:228-250 | the loop up to Stop processes everything queued, in order |
| `KvWriter.KvCacheWriter.AppendFrame` | ncf-kvcache/src/writer.rs:307-329 | the loop over the buffers deals out the frame, counts it and flushes a full block; a frame of the wrong size is refused and changes nothing |
| `KvWriter.KvCacheWriter.TakeBatch` | ncf-kvcache/src/writer.rs:347-381 | the first loop of flush_block allocates wrapping chunk ids, moves the payloads out and reads head and epoch |
| `KvWriter.KvCacheWriter.FlushBlock` | ncf-kvcache/src/writer.rs:346-397 | enqueues the batch, advances the pending block, resets the buffers; nothing for an empty buffer |
| `KvWriter.KvCacheWriter.Truncate` | ncf-kvcache/src/writer.rs:415-459 | range check, epoch bump, any number of worker steps, then rollback or trimming: the state is that of the specification's two halves with the steps between them; on the overflow errors only the epoch has changed |
| `KvWriter.KvCacheWriter.DrainFlushWorker` | ncf-kvcache/src/writer.rs:399-412 | Stop and join leave the settled state |
| `KvWriter.KvCacheWriter.Close` | ncf-kvcache/src/writer.rs:472-480 | drop flushes what is buffered and lets the worker finish |
| `KvWriter.CreateCache` | ncf-kvcache/src/writer.rs:81-135 | create writes header and metadata and one empty buffer per (layer, head) |
| `KvWriter.ReloadBuffers` | ncf-kvcache/src/writer.rs:171-189 | the reload loops fill every buffer from the partial last block, or report the first column for which it is missing |
| `KvWriter.OpenCache` | ncf-kvcache/src/writer.rs:138-202 | open continues from the committed count and index of the file, or reports the error the reader met |
| `NcfFormat.ChunkHeaderRoundTrip` | ncf-core/src/chunk.rs:19-57 | an encoded 30-byte chunk header decodes to itself |
| `NcfFormat.ChunkHeaderDecodesIff` | ncf-core/src/chunk.rs:32-56 | a chunk header decodes exactly from 30 bytes beginning with NCFK; fewer bytes and another magic are different errors |
| `NcfFormat.PrefixRoundTrip` | ncf-core/src/header.rs:119-161 | an encoded 48-byte file prefix decodes to itself, flags included |
| `NcfWriter.SpanPrefix` | ncf-io/src/writer.rs:160-196 | the running offset of a chunk is the length of the chunks before it |
| `NcfWriter.NcfWriter.AddTensor` | ncf-io/src/writer.rs:66-69 | adds the tensor at the end |
| `NcfWriter.NcfWriter.PrepareChunks` | ncf-io/src/writer.rs:94-108 | the first pass compresses and hashes every payload, or fails with the first that does not compress |
| `NcfWriter.NcfWriter.PlaceChunks` | ncf-io/src/writer.rs:153-196 | the loop with running offsets yields the closed form: chunk i is recorded at the base plus the lengths before it; it gives up exactly when an offset overflows |
| `NcfWriter.NcfWriter.PlanFile` | ncf-io/src/writer.rs:72-236 | every check of finalize in its order, and the plan it arrives at |
| `NcfWriter.WriteFile` | ncf-io/src/writer.rs:238-262 | the emission loop writes prefix, header, schemas, chunks, index and footer back to back |
| `NcfWriter.NcfWriter.Finalize` | ncf-io/src/writer.rs:72-265 | either an error and no file, or exactly the planned file |
| `NcfReader.OpenFile` | ncf-io/src/reader.rs:70-188 | open decodes prefix, header and index with every bound checked, and fills the chunk map entry by entry |
| `NcfOpening.OpenAnswers` | ncf-io/src/reader.rs:70-191 | any file opens if and only if it has 48 bytes, a magic and a metadata block that fits and decodes, a schema block that ends where the index begins and fits, and a footer whose index fits and decodes; a short file is the only other error |
| `NcfOpening.ChunkMapIsLast` | ncf-io/src/reader.rs:166-170 | the chunk map leads an id to the last entry that has it |
| `NcfOpening.SliceAnswers` | ncf-io/src/reader.rs:238-262 | tensor_slice gives the bytes between header and checksum of the entry behind the name's id exactly if name, id and room are there |
| `NcfReader.NcfReader.Schemas` | ncf-io/src/reader.rs:389-411 | decodes the schema block once, remembers success or failure, and builds the name map |
| `NcfReader.NcfReader.FindSchema` | ncf-io/src/reader.rs:208-222 | looks a name up through the map: the last schema of that name |
| `NcfReader.NcfReader.Verify` | ncf-io/src/reader.rs:265-277 | verifies chunk after chunk and stops at the first answer that is not yes |
| `NcfReader.NcfReader.VerifyEvery` | ncf-io/src/reader.rs:374-381 | verifies name after name and stops at the first that fails |
| `NcfReader.NcfReader.Read` | ncf-io/src/reader.rs:414-507 | the loop concatenates the decompressed chunks, or reports the first error |
| `NcfLayout.LayoutAgrees` | ncf-io/src/writer.rs:212-262 | prefix, header, schemas, chunks, index and footer lie in the file where the prefix says; the length is index_offset plus index length plus 16 |
| `NcfWritten.WrittenPrefix` | ncf-io/src/writer.rs:82-90 | the first 48 bytes: magic, version, extents of the blocks, number of tensors; bit 0 of the flags is set if and only if it was asked for or some tensor, whichever, is to be compressed, bits 1 and 2 are as given |
| `NcfWritten.WrittenChunk` | ncf-io/src/writer.rs:244-258 | at the emitted offset of chunk i: its magic, its number, flag 1 exactly if the length changed, both lengths, the packed payload and the payload's hash |
| `NcfWritten.WrittenRecords` | ncf-io/src/writer.rs:110-196 | schema i is the given one with a single reference in place of its chunks; reference and index entry have the same id, offset and length, and the entry the name's hash; offsets start behind prefix, metadata and placeholder schemas and add up |
| `NcfWritten.FinalizesIff` | ncf-io/src/writer.rs:72-225 | a file is written if and only if the metadata fits, every payload packs, and chunks, schemas and index fit their limits; a payload that does not pack is the error of its own, everything else a header error |
| `NcfLayout.ChunkIsThere` | ncf-io/src/writer.rs:244-258 | chunk i is found, byte for byte, behind the schemas and the chunks before it |
| `NcfLayout.OpensIffSchemaAreaFits` | ncf-io/src/reader.rs:113-126 | a written file opens if and only if schemas and chunks together fit MAX_SCHEMA_SIZE, and then header, prefix, index and schemas come back |
| `NcfLayout.RecordedRanges` | ncf-io/src/writer.rs:160-196 | recorded chunk ranges follow one another without gap or overlap |
| `NcfLayout.LookupPathsAgree` | ncf-io/src/reader.rs:208-248 | for every name, repeated ones included, tensor_map then chunk_map and schema_map then the first ChunkRef give the same id, offset and length, those of the last tensor of that name; both find nothing for any other name |
| `NcfLayout.Shortfall` | ncf-io/src/writer.rs:142-176 | recorded and emitted chunk offsets differ by the difference of the two schema encodings, the same for every chunk |
| `NcfLayout.MovedReferenceReads` | ncf-io/src/reader.rs:279-507 | in every written file, a chunk reached through its schema's reference moved to where the chunk was emitted reads as the payload added, and verifies, if and only if the length-based flag agrees with the compression; otherwise reading reports invalid data and verifying says no |
| `NcfOffsets.ShortfallIsExcess` | ncf-io/src/writer.rs:127-176 | with CBOR schemas every recorded offset falls short of the emitted one by the extra argument bytes of all chunk references, at least two per tensor |
| `NcfCborSchemas.CborSchemasAreLawful` | ncf-io/src/writer.rs:204-214 | no CBOR schema list is a prefix of another one with anything behind it, so the schemas come back and what is assumed of the libraries and of the schema encoding holds together |
| `NcfCborSchemas.SchemaWritten` | ncf-core/src/schema.rs:4-21 | a schema is written as a map of seven named fields in declaration order |
| `NcfCborSchemas.ChunkWritten` | ncf-core/src/schema.rs:23-36 | a chunk reference is written as a map of five named fields, the checksum as an array of numbers |
| `NcfOffsets.OffsetsRightIffEmpty` | ncf-io/src/writer.rs:127-176 | the recorded offsets are the emitted ones if and only if there are no tensors |
| `NcfOffsets.TensorSliceIsShifted` | ncf-io/src/reader.rs:238-262 | tensor_slice of a written file always returns a slice of the right length that starts too early by that amount |
| `NcfOffsets.SingleTensorUnreadable` | ncf-io/src/roundtrip_tests.rs:84-140 | for any single tensor, reading and verifying it from the written file both fail: the recorded offset points into the checksum's digits, where no chunk magic can be |
| `NcfVerify.VerifiesIffIntact` | ncf-io/src/reader.rs:279-371 | on any file and schema, a chunk verifies if and only if header, payload and checksum lie back to back at its reference, agree with it, and the payload unpacks to data of the recorded length and hash |
| `NcfVerify.IntactVerifies` | ncf-io/src/reader.rs:279-371 | such a record also reads, as that data |
| `NcfAnswers.VerifyAnswers` | ncf-io/src/reader.rs:279-371 | verify_chunk on any bytes: an error if and only if no magic header is there, or payload or checksum of an agreeing header leave the file, or an otherwise agreeing payload does not unpack; otherwise yes exactly for an intact record, and no for everything else |
| `NcfAnswers.RecordAnswered` | ncf-io/src/reader.rs:341-344 | a record of the referenced length with any header and any 32 bytes for a checksum, whose payload unpacks, is answered yes or no and never with an error |
| `NcfAnswers.VerifyTensorAnswers` | ncf-io/src/reader.rs:265-277 | NotFound for names no schema carries and for these alone; otherwise the last schema of the name decides |
| `NcfAnswers.VerifyChunksAnswers` | ncf-io/src/reader.rs:270-276 | several chunks: yes if all are yes, otherwise the answer of the first that is not |
| `NcfAnswers.VerifyAllAnswers` | ncf-io/src/reader.rs:374-381 | the whole file: yes if every listed name is a yes, otherwise the answer of the first that is not, which is a no or a chunk's error |
| `NcfAnswers.ReadAnswers` | ncf-io/src/reader.rs:414-507 | a chunk reads as d if and only if a header with honest flags is there, the payload is in the file and unpacks to d, as long as the header says; the error is always the same |
| `NcfAnswers.ReadTensorAnswers` | ncf-io/src/reader.rs:414-507 | read_tensor: nothing exactly for names no schema carries, otherwise all chunks of the last schema of the name one after another, or the error |
| `NcfVerify.VerifiedTensorReads` | ncf-io/src/reader.rs:414-507 | on any file and schemas, a verified tensor reads, as the concatenation of pieces with the recorded hashes and lengths |
| `NcfVerify.VerifiedFileReads` | ncf-io/src/reader.rs:374-381 | verify_all succeeds exactly when every listed tensor verifies, and then every name reads in full or is in no schema |
| `Gguf.Elements` | ncf-convert/src/from_gguf.rs:90-93 | the saturating product of any dimensions is the true product cut off at 2^64 - 1, also for zeros after saturation |
| `Gguf.CheckSize` | ncf-convert/src/from_gguf.rs:76-103 | by GGML type: F32 and I32 need exactly the true product of the dimensions times 4 bytes, F16 and I16 times 2, I8 once; every other type takes any size |
| `Gguf.TypesKept` | ncf-convert/src/from_gguf.rs:10-31 | the five fixed-width types keep name and element width, the packed ones go to packed types, unknown ones to Custom(0) |
| `Gguf.SortInPlace` | ncf-convert/src/from_gguf.rs:57-59 | the offsets are sorted in place |
| `Gguf.SortSorts` | ncf-convert/src/from_gguf.rs:57-59 | the result is ascending and holds the same offsets |
| `Gguf.BinarySearch` | ncf-convert/src/from_gguf.rs:63-66 | finds a position of the key, or none exactly when the key is absent |
| `Gguf.LookupsSucceed` | ncf-convert/src/from_gguf.rs:63-72 | for distinct offsets inside the data neither lookup error can occur and no slice leaves the data |
| `Gguf.SlicesPartition` | ncf-convert/src/from_gguf.rs:57-72 | for such offsets the slices are non-empty and, in offset order, make up the data from the smallest offset to its end without gap or overlap |
| `Gguf.SliceIsUnique` | ncf-convert/src/from_gguf.rs:67-72 | there is one slice per offset: up to the least larger offset or the end of the data |
| `Gguf.Convert` | ncf-convert/src/from_gguf.rs:57-118 | for any offsets: on success every tensor has its name and dimensions, is row-major, plain, uncompressed and without chunks, keeps its element type, and has a slice of the right size from its offset to the least larger one (or, if the offset is repeated, possibly an empty one); otherwise the first tensor that cannot be made decides: no larger end is MissingEnd, an end beyond the data a panic, a slice of the wrong size SizeMismatch, and no offset is ever invalid |
| `Gguf.MadeOnlyInside` | ncf-convert/src/from_gguf.rs:57-72 | success means that no offset lies beyond the data |
| `Gguf.WellPlacedSlices` | ncf-convert/src/from_gguf.rs:57-118 | for distinct offsets inside the data the slice is the one up to the least larger offset, and the only failure is a size mismatch |

## Left out

- KvReader.ReconstructIndex: requires that the walk ends; on a cyclic chain of trailers, which no writer produces, the program loops forever.
- KvReader.OpenReader: does not decode the metadata block, whose CBOR errors the program also reports.
- KvWriter.OpenCache: a header with zero layers, heads or element bytes counts as an error; the program accepts it and later panics on the first buffer.
- KvWriter.CreateCache: takes the metadata bytes as given; zero layers, heads or element bytes are excluded.
- KvRefinement.CacheRefinesLog: holds under the guards above and while counters stay below 2^64.
- KvOverlap.AppendsReadIffIdle: new caches only; a flush over work in flight in any other session is covered block by block (KvOverlap.FlushHidesFlight).
- KvReaders.ReadersInTheGap: between the two stores, tokens just added to a block stored before are read from its older, shorter payload; what bytes they give is not stated.
- KvTokens.TruncateConservesIffSafe: requires fewer than 2^32 tokens in flight, because the number of tokens to drop is cut to 32 bits.
- KvExact.RollbackReadsIffClean: one frame appended after the rollback; longer continuations after a clean cut are covered by the refinement.
- Gguf.Convert: with repeated offsets it is left open which occurrence the standard library's binary search returns.
- Gguf.SortInPlace: an insertion sort stands for the standard library's unstable sort, whose result on numbers is the same.
- NcfOffsets.SingleTensorUnreadable: with several tensors a recorded offset may land in a name or payload that happens to look like a chunk, so only the offsets are characterised there.
- I/O errors, send errors and a panicking worker thread: buffers are half-cleared on those paths; not modelled.
- Readers that stay open while the cache is appended to: only block_bytes is covered (KvChains.SnapshotReads); token_bytes reads the count live against the index of opening and does not check the entry's token count.
- Memory ordering, memory mapping and thread scheduling below the level of single loads and stores.
- UTF-8 checks on names, CBOR forms the serializer never writes (indefinite lengths, other field orders), recursion limits of the CBOR library.
- The metadata structures, inspect and display code, KvcacheIndex::tensor_key and the plain accessors.
- ncf-io/src/stream.rs, ncf-io/src/http_reader.rs, ncf-io/src/mmap.rs, the command line, the Python bindings, safetensors conversion, benchmarks and fuzz targets.
