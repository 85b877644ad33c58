# OpenXet: a verified model

OpenXet is a content-addressed store. A file is cut into chunks, the chunks are packed into
*xorbs*, a *shard* lists the file as terms `(xorb, chunk range)`, and the server checks the
shard before it indexes the file. Readers ask the server for a file's terms, fetch byte spans
of xorbs and decode them. Files are owned through claims, and a mark-and-sweep collector
removes what no indexed file needs. The chunk formats and the hashes come from xet-core; all
the bookkeeping between them is OpenXet's own, and that bookkeeping is what is modelled and
proved here. Paths below are relative to the root of OpenXet's repository.

The main results:

- **Upload, then download, is the identity on bytes** (`RoundTrip.UploadThenDownload`,
  `RoundTrip.UploadThenRange`): for every non-empty chunk list and every mix of new and
  deduplicated chunks, whoever reads, and whatever happens to the server afterwards while the
  file stays indexed. Sub-ranges are exact for every file under 4 GiB, and for a larger one if
  the terms it is indexed with fit their u32 lengths.
- **Only owners and admins read a file** (`Access.DownloadsIffOwner`): everybody else is told that
  it does not exist. Over any run from the empty store, an owner reads exactly what an accepted
  registration of his declared and he has not released since (`Access.ReadsIffGranted`).
- **What is registered is proven** (`Registration.AcceptedIff`, `Registration.IndexedFilesAreProven`),
  and every refusal is for the first defect (`Registration.UploadAnswers`).
- **No run loses a file** (`Invariants.EveryRunIsSafe`), with every handler as one step.
- **Nor does an interleaved run** (`Interleaving.InterleavedRunIsSafe`), with uploads,
  registrations and any number of overlapping collections taken step by step, as long as no
  registration under way refers to an object that some pass is about to delete, and no pass
  deletes a shard that another, still marking, has yet to read. The first condition is exact
  (`Completion.PendingSurvivesIff`): if the passes under way run to their end and the
  registration then indexes its files, each file is sound if and only if neither its shard nor
  a xorb it uses was about to be deleted. Being marked or young is enough while nothing is
  stored again under a list that condemns it (`Sparing.SparedRunIsSafe`), hence while passes do
  not overlap (`Sparing.OnePassRunIsSafe`). When they do, a young xorb can be lost
  (`ExampleRuns.OverlapLosesYoungXorb`), and so can a file that was indexed all along
  (`ExampleRuns.IndexedFileLost`). The condition speaks of one registration and the passes under
  way: a later registration of the same file through another shard decides its fate anew.
- **The grace period protects uploads in flight**, with whole collections as steps
  (`InFlight.GraceProtectsUploads`) and with overlapping collections taken step by step
  (`Grace.GraceProtectsAmongPasses`); `InFlight.RegistrationAfterIff` says exactly when a
  registration is still accepted after whatever ran since its xorbs were posted.
- **A collection accounts for every object and byte** (`Servers.Server.RunGc`), keeps exactly what
  an indexed file refers to and what is younger than the grace period (`Collection.PassKeepsIff`),
  and is idempotent.
- **Packing is optimal** (`Packing.GreedyIsOptimal`), **term lists are canonical and shortest**
  (`Terms.CoalescingIsCanonical`, `Planning.PlanHasFewestTerms`), **merged fetch ranges are canonical and depend on their
  union alone** (`RangeMerging.MergedDependsOnUnion`).
- **Range reads are exact if and only if every term of the file is shorter than 4 GiB**, for
  files whose positions are u64 numbers (`Reconstruction.RangeReadsExactIff`), and the answer
  cannot be made smaller.
- **The usage report is exact** (`UsageReports.UsageIsExact`): row by row and in total it adds up
  the sizes of the files claimed and indexed.
- **The fast index paths equal the slow ones** that re-read the blob
  (`XorbMeta.FastOffsetsRefineSlow`, `XorbMeta.FastTriplesRefineSlow`).

## How the model is laid out

One module per file.

- `Basics`, `XetCore`: bytes, hashes, u32 arithmetic, sums and joins; the record `Xet` of
  library functions.
- `ByteGrouping`, `Frames`, `XorbMeta`, `Decoding`: the chunk-frame format, the metadata walk,
  index layouts, and both client decoders.
- `ChunkMeaning`, `XorbUploads`, `Registration`, `Queries`, `Planning`, `Access`, `Answers`,
  `PassTables`: what the operations do and answer, said of bytes, chunks, tables and clocks
  themselves, apart from the functions that compute it.
- `Packing`, `Terms`, `UploadSessions`: the upload session and the plan it makes.
- `RangeHeaders`, `RangeReads`, `RangeMerging`, `Paging`: the text of Range headers, range
  trimming, chunk-range merging, keyset paging.
- `Store`: the stored state and each handler as a function on it. `Validation`, `Servers`,
  `Serving`, `UsageReports`: the handlers and the client as methods, proved equal to those
  functions; `Server` and `UploadSession` are classes whose fields the methods update in place.
- `Invariants`, `Collection`, `Discovery`, `Ownership`, `Reconstruction`, `RoundTrip`,
  `InFlight`: what the functions keep and what they achieve, over all inputs and all runs.
- `Interleaving`, `Sparing`, `LayoutWrites`, `Completion`, `Grace`: the handlers as separate
  moves that interleave, when being marked or young is enough, what becomes of layouts, how
  collections under way end, and what the grace period promises among them.
- `Examples`, `ExampleRuns`: a library that meets every hypothesis, and literal runs on it from
  the empty store for each way the code falls short.

Lemmas carry `{:induction false}`: every induction in the project is written out.

## What is assumed of the library

xet-core's code is not part of this model. Its functions are the fields of the record
`XetCore.Xet`, unconstrained except where a statement names one of these predicates:

- `DataHashInjective`, `FileHashInjective`, `XorbHashInjective`, `HmacInjective`: the hash in
  question has no collisions (the HMAC: for one key).
- `FootersChecked`: full footer validation accepts only bodies whose frames walk, aggregate to
  the expected hash, and match the footer.
- `OnlyVersionZero`: only version 0 chunk headers parse.
- `StandardLimits`: the raw content cap is 64 MiB.
- `SealsReadBack`, `SealsFit`, `ShardsPrint`, `Serialisable`: what the serialisers write, the
  parsers take back, within the serialised-size allowance.
- `DecodesFrames`: on frames that unpack to less than 4 GiB the library decoder returns the
  joined chunks and their boundaries; only `Decoding.ClientsAgree` needs it.

`Trusted` and `WorkingLibrary` collect the ones the invariants and the round trip need. They
are consistent: `Examples.HypothesesAreConsistent` gives a library that meets them all.

Hashes are numbers: the value of their hex digits, so their order is the index order.
Clocks, grace periods, upload times and the HMAC key are parameters. u32 arithmetic wraps, as
in a release build; where a result needs the totals to stay below 2^32 it says so, and where
the caps imply it that is proved (`RoundTrip.PlannedTermsFit`).

## Where the code and its words differ

The model follows the code.

- `docs/SPECIFICATION.md` caps a serialised xorb at 64 MiB; the server accepts 4 MiB more
  (`crates/server/src/routes/xorb.rs:52-57`).
- `crates/server/src/gc.rs:110-112` says that purging the index first keeps a new shard from
  passing validation against an xorb about to be deleted. Validation asks whether the blob
  exists and never reads the index (`crates/server/src/routes/shard.rs:138-149`), so a
  registration can be accepted between the purge and the deletion, and is then stranded:
  `Completion.AcceptedThenStranded`. Nor does its own validation protect it, when the deletion
  comes before the index writes: `Completion.ValidatedThenLost`. As literal runs:
  `ExampleRuns.StrandingHappens`.
- What protects a registration is that nothing it refers to is about to be deleted, the shard
  included: one that re-uploads a shard stored before keeps the shard's old upload time, and the
  shard sweep can delete it although every xorb is marked
  (`Completion.AcceptedThenShardLost`, `ExampleRuns.ShardLossHappens`).
- `crates/server/src/storage/object_store_backend.rs:83-84` calls sweeps safe to race with each
  other. Deleting twice is harmless, but nothing keeps the background loop
  (`crates/server/src/main.rs:101-110`) and `POST /v1/gc` (`crates/server/src/routes/admin.rs:37`)
  apart, and a pass deletes by a list that may be stale: an xorb that one pass deleted and a
  client stored anew, young and just registered, is deleted by the other
  (`Completion.StaleListStrands`, `ExampleRuns.OverlapLosesYoungXorb`).
- `crates/server/src/gc.rs:63-68` skips a live shard that is gone when it comes to read it, on the
  ground that its files are lost anyway. They need not be: a file registered again through a new
  shard, while one pass has yet to read the old one, is lost when another pass deletes the old
  shard first, although it was indexed all along (`Completion.StaleMarkStrands`,
  `ExampleRuns.IndexedFileLost`).
- Nothing keeps a pass from deleting an old xorb whose upload has yet to write its layout. Files
  do not suffer, but the layout stays behind (`ExampleRuns.LayoutLeftBehind`); layouts are true
  in runs where that does not happen (`LayoutWrites.InterleavedRunKeepsInv`).
- `crates/server/src/gc.rs:10-15` admits one race for uploads in flight, a dedup hit on a xorb
  that is collected. There is a second: posting a xorb that is already stored, old and unmarked
  does not make it young (`InFlight.RepostedXorbIsLost`, `ExampleRuns.RepostingLoses`).
- The client offers downloads with a start and no end (`python/src/openxet_fsspec/client.py:96-97`);
  the server's header parser requires both numbers (`crates/server/src/routes/reconstruction.rs:46-57`),
  so such a read is always refused: `Reconstruction.OpenEndedIsRefused`.
- The server trusts a term's declared length, a u32. For a term that unpacks to 4 GiB or more
  the declared length is too small, and range reads past it fail:
  `Reconstruction.OverlongTermBreaksRanges`, and as a literal run `ExampleRuns.LongTermHappens`.
  A plan of the upload client has such a term only for a file of 4 GiB or more, deduplicated
  against a xorb that unpacks to 4 GiB or more: `RoundTrip.PlannedTermsFit`.

## Model

| member | source | states |
|---|---|---|
| ByteGrouping.Ungroup4 | python/src/openxet_fsspec/client.py:10-26 | the two nested loops deal the four groups back to exactly the positions grouping took them from, for every length |
| ByteGrouping.SplitGroups | python/src/openxet_fsspec/client.py:12-18 | slicing by the four computed sizes yields the four position groups, and together they use up the input |
| ByteGrouping.UngroupInvertsGroup | docs/SPECIFICATION.md:247-250 | ungrouping a grouped sequence gives the sequence back, for every length and every remainder mod 4 |
| ByteGrouping.GroupInvertsUngroup | docs/SPECIFICATION.md:247-250 | grouping an ungrouped sequence gives it back too, so the two are mutually inverse |
| ByteGrouping.GroupsByPosition | docs/SPECIFICATION.md:247-250 | bytes go by their position within the four and then in their old order, which leaves one way to lay them out |
| ByteGrouping.GroupingPermutes | docs/SPECIFICATION.md:247-250 | both directions are permutations: no byte is lost, added or changed |
| Frames.HeaderRoundTrip | docs/SPECIFICATION.md:239-245 | reading a printed chunk header gives the header back whenever its lengths fit 24 bits |
| Frames.WalkPrinted | crates/server/src/routes/xorb_meta.rs:33-80 | any printed frames followed by any tail that is not a complete frame walk to exactly those frames |
| Frames.WalkedIsPrinted | crates/server/src/routes/xorb_meta.rs:33-80 | conversely every body that walks is its frames printed, followed by such a tail |
| Frames.WalkSlice | crates/server/src/routes/reconstruction.rs:274-295 | the bytes between the boundaries of frames i and j, on their own, walk to exactly frames i..j |
| ChunkMeaning.HeaderIsLittleEndian | docs/SPECIFICATION.md:239-245 | the eight header bytes are version, little-endian length, scheme, little-endian size, and the payload follows |
| ChunkMeaning.DecodesByScheme | python/src/openxet_fsspec/client.py:49-59 | for all bytes s, a chunk decodes to s exactly if its payload is s (scheme 0), LZ4 of s (scheme 1) or LZ4 of the byte-grouped s (scheme 2); any other scheme is an unknown type, and a payload LZ4 refuses a failed decompression |
| ChunkMeaning.DecodesEach | python/src/openxet_fsspec/client.py:29-61 | decoding chunks start..end of any chunks gives exactly what those stand for, each by its own scheme, whatever follows |
| ChunkMeaning.DecoderRefuses | python/src/openxet_fsspec/client.py:39-47 | a version other than 0 and a payload cut short are refused, each with its own error |
| ChunkMeaning.WalkReadsByScheme | crates/server/src/routes/xorb_meta.rs:55-68 | the walk reads a chunk exactly if its payload stands for as many bytes as the header claims, and otherwise reports the unknown scheme, the failed decompression or the two lengths, with the chunk's number |
| ChunkMeaning.WalkStopsIff | crates/server/src/routes/xorb_meta.rs:38-53 | the walk stops exactly at fewer than eight bytes, a header the library does not accept, or a payload cut short |
| ChunkMeaning.FirstDefectDecides | crates/server/src/routes/xorb_meta.rs:55-68 | after any good chunks the first bad one fails the walk, with its number |
| ChunkMeaning.BodyDefectIsReported | crates/server/src/routes/xorb_meta.rs:55-68 | in a whole body the chunks are numbered from 0 |
| ChunkMeaning.WalkAndDecoderAgree | crates/server/src/routes/xorb_meta.rs:55-68 | the server's walk and the client's decoder read the same bytes from a chunk |
| XorbMeta.WalkChunkFrames | crates/server/src/routes/xorb_meta.rs:33-80 | the in-place walk terminates and returns the hashes, boundaries and wrapped unpacked offsets of the body's frames, or the first frame's error |
| XorbMeta.XorbHashFromInfo | crates/server/src/routes/xorb_meta.rs:83-96 | the xorb hash is aggregated over each chunk hash paired with the difference of neighbouring unpacked offsets |
| XorbMeta.InfoRecoversSizes | crates/server/src/routes/xorb_meta.rs:83-96 | on the metadata of actual frames those differences are the true chunk sizes, even where the u32 running total wrapped |
| XorbMeta.ValidatedXorbInfo | crates/server/src/routes/xorb_meta.rs:101-139 | the footer policy on upload: validated footer, footer without offsets, or no footer, with client errors and server errors told apart |
| XorbMeta.XorbInfoFromStored | crates/server/src/routes/xorb_meta.rs:144-153 | the footer policy on read: a footer with offsets, else the walk |
| XorbMeta.AcceptedIsSound | crates/server/src/routes/xorb_meta.rs:98-153 | whatever upload validation accepts, a later read of the stored bytes finds the same metadata, and it describes the actual frames, which aggregate to the hash it was uploaded under |
| XorbUploads.FooterPolicy | crates/server/src/routes/xorb_meta.rs:101-139 | which of the three kinds of body is accepted, with what metadata, and which error it gets otherwise; only a legacy footer over frames that do not walk is a server error |
| XorbUploads.StoredPolicy | crates/server/src/routes/xorb_meta.rs:144-153 | reading stored bytes takes a footer with offsets as it stands and walks anything else |
| XorbUploads.AcceptedXorbIff | crates/server/src/routes/xorb.rs:72-92 | a body is stored exactly if it is within 4 MiB over the content cap, new, vouched for by any footer it has, and its frames aggregate to the hash; no upload ends in a server error |
| XorbUploads.StandardAllowance | crates/server/src/routes/xorb.rs:52-57 | with the standard cap nothing over 68 MiB is stored |
| XorbUploads.UploadChanges | crates/server/src/routes/xorb.rs:94-119 | every table after an accepted upload: the blob with its time, a row for each chunk at its place behind the old rows, and a layout with size on disk and each chunk's hash, size and payload length |
| XorbUploads.RefusedChangesNothing | crates/server/src/routes/xorb.rs:72-92 | an upload that is too large, stored before, or does not check out changes nothing |
| XorbMeta.LayoutFromInfo | crates/server/src/routes/xorb_meta.rs:159-180 | the loop records per chunk its hash and the differences of both kinds of offsets |
| XorbMeta.LayoutDescribesFrames | crates/server/src/routes/xorb_meta.rs:155-180 | a recorded layout names, frame by frame, the chunk's hash, its size and its payload length |
| XorbMeta.ChunkByteOffsets | crates/server/src/routes/xorb_meta.rs:184-193 | the byte span of every chunk, each starting where the one before ends |
| XorbMeta.ChunkByteOffsetsFromLayout | crates/server/src/routes/reconstruction.rs:72-87 | the same spans as running sums over the layout, or nothing when a payload length is missing |
| XorbMeta.FastOffsetsRefineSlow | crates/server/src/routes/reconstruction.rs:66-87 | layout-derived spans equal blob-derived ones whenever they are given, and are withheld exactly when some frame has an empty payload |
| XorbMeta.ChunkInfoTriples | crates/server/src/routes/xorb_meta.rs:197-206 | hash, unpacked offset and size of every chunk, from metadata |
| XorbMeta.TriplesFromLayout | crates/server/src/routes/dedup.rs:58-70 | the same triples with a running offset over the layout |
| XorbMeta.FastTriplesRefineSlow | crates/server/src/routes/dedup.rs:54-78 | layout-derived dedup triples equal blob-derived ones |
| XorbMeta.FramesGrow | crates/server/src/routes/xorb_meta.rs:71-76 | metadata of actual frames below 4 GiB has boundaries growing by at least a header, so the two refinements apply to it |
| Decoding.DecodeChunks | python/src/openxet_fsspec/client.py:29-61 | the client's frame loop returns the bytes of chunks start..end, or the first error among the frames it reads |
| Decoding.DecodePrinted | python/src/openxet_fsspec/client.py:29-61 | on printed frames, whatever follows them, decoding start..end gives exactly those chunks' bytes |
| Decoding.ClientsAgree | crates/wasm/src/lib.rs:389-402 | the wasm decoder accepts a fetched slice that unpacks to less than 4 GiB exactly for ranges inside it, and then returns the same bytes as the Python decoder |
| Decoding.UndecodableIsRefused | crates/wasm/src/lib.rs:389-391 | what the library cannot decode is refused as such |
| Packing.PackChunks | crates/wasm/src/lib.rs:235-292 | the greedy loop cuts the unresolved chunks, in order, into groups within both caps, closes a group only when the next chunk would break a cap, places each chunk at its group position in its group's xorb, and leaves deduplicated chunks where they were |
| Packing.PlaceGroup | crates/wasm/src/lib.rs:246-251 | sealing a group places its members, in order, and nothing else |
| Packing.GreedyStaysAhead | crates/wasm/src/lib.rs:267-281 | after any number of groups the greedy packing has consumed at least as many chunks as any other packing within the caps |
| Packing.GreedyIsOptimal | crates/wasm/src/lib.rs:235-292 | no order-preserving packing within the caps uses fewer xorbs |
| Terms.RunEnd | crates/wasm/src/lib.rs:307-314 | the inner loop stops exactly at the first chunk that does not continue the run |
| Terms.Coalesce | crates/wasm/src/lib.rs:299-329 | the terms expand to the placement sequence, no two neighbours could be joined, and each carries the u32 byte total and the verification hash of exactly its chunks |
| Terms.ExpandSlice | crates/wasm/src/lib.rs:306-329 | term k stands for the chunks between its two cuts, and for no others |
| Terms.CoalescingIsCanonical | crates/wasm/src/lib.rs:299-329 | losslessness and maximality determine the chunk ranges: any two such term lists agree |
| Planning.PlanHasFewestTerms | crates/wasm/src/lib.rs:299-329 | no term list that stands for the plan's placements is shorter than the plan's |
| Planning.PlanKeepsCaps | crates/wasm/src/lib.rs:267-292 | each planned xorb is one chunk or keeps both caps, and the first chunk of the next would have broken one |
| Planning.PlanCounts | crates/wasm/src/lib.rs:226-233 | the plan counts the file's chunks and the chunks that had a placement, and its file hash is that of the chunk hashes and sizes |
| Planning.XorbHoldsItsChunks | crates/wasm/src/lib.rs:204-220 | a planned xorb is one frame for each chunk of its group, packed by the library, the library's footer, and the hash of its chunks |
| Planning.ShardListsNewXorbs | crates/wasm/src/lib.rs:331-370 | the planned shard has one block with verification entries, and lists exactly the new xorbs, each with the chunk hashes its own bytes have |
| UploadSessions.UploadSession.constructor | crates/wasm/src/lib.rs:106-118 | a new session has its chunks, nothing resolved and nothing probed |
| UploadSessions.UploadSession.NextQueryBatch | crates/wasm/src/lib.rs:132-149 | hands out the hashes of the first `max` candidates, marks exactly those as probed, and changes nothing else |
| UploadSessions.UploadSession.ApplyDedupShard | crates/wasm/src/lib.rs:154-189 | resolves exactly the unresolved chunks whose keyed hash the response holds, and refuses a response without a key, changing nothing |
| UploadSessions.UploadSession.Finish | crates/wasm/src/lib.rs:193-199 | returns the plan of the session's chunks and placements and leaves the session empty |
| UploadSessions.BuildPlan | crates/wasm/src/lib.rs:222-378 | packing, placement, terms, counts, xorb bodies and the printed shard are all those of one consistent plan |
| UploadSessions.CollectLookup | crates/wasm/src/lib.rs:166-178 | the lookup table holds, for each keyed hash, the last place a block gives it |
| UploadSessions.LookupIsSound | crates/wasm/src/lib.rs:166-178 | whatever the table answers, some block of the response holds that keyed hash at that place |
| UploadSessions.EventStep | crates/wasm/src/lib.rs:132-189 | one batch or response never unsets a probe, never changes a set placement, and uses up one unprobed chunk for each chunk handed out |
| UploadSessions.ProbingConverges | crates/wasm/src/lib.rs:120-149 | over any interleaving of batches and responses no chunk is handed out twice, set placements never change, and the unprobed count pays for every chunk handed out |
| UploadSessions.EmptyBatchMeansDone | crates/wasm/src/lib.rs:120-149 | an empty batch, asked for with room, means no unresolved candidate is left |
| Queries.BatchIsFirstWorthAsking | crates/wasm/src/lib.rs:132-149 | a batch is the first `max` of the chunks that were never handed out, are unresolved, and are the first, follow a resolved one or are eligible; with room, exactly those |
| Queries.FirstChunkFirst | crates/wasm/src/lib.rs:132-149 | the first batch of a new session starts with the file's first chunk, eligible or not |
| Queries.ContinuationIsOffered | crates/wasm/src/lib.rs:120-149 | after any response the chunk behind a resolved one is offered, if unresolved, never handed out, and there is room |
| Queries.AllKnownWhenDone | crates/wasm/src/lib.rs:120-149 | if a batch with room comes back empty and every chunk handed out was found, the whole file is known |
| Queries.LookupIsLast | crates/wasm/src/lib.rs:166-178 | the lookup table has a hash exactly if some block holds it, and then names the last place |
| Queries.ResolvesExactly | crates/wasm/src/lib.rs:154-189 | a response resolves exactly the unresolved chunks whose keyed hash one of its blocks holds, to the last place, and changes nothing else; without a key, nothing at all |
| Queries.HitResolves | crates/server/src/routes/dedup.rs:54-78 | an answer about a chunk that some stored xorb holds resolves every chunk with that hash, under any key |
| RangeReads.TrimTerms | crates/server/src/routes/reconstruction.rs:140-173 | the loop keeps the contiguous terms that overlap the clamped range, with the offset into the first, and refuses exactly the starts at or past the total size |
| RangeReads.RangeIsExact | crates/server/src/routes/reconstruction.rs:140-173 | slicing the kept terms at the returned offset gives exactly bytes a..min(b, size - 1) |
| RangeReads.TrimIsMinimal | crates/server/src/routes/reconstruction.rs:153-170 | the offset lies inside the first kept term, every kept term of non-zero length holds a requested byte, and no dropped term does |
| RangeMerging.MergedChunkRangesPerXorb | crates/server/src/routes/reconstruction.rs:180-212 | one entry per xorb in first-seen order, each with the sorted and merged ranges of all its terms |
| RangeMerging.MergeSorted | crates/server/src/routes/reconstruction.rs:200-207 | the last-element update loop merges overlapping and adjacent ranges of a sorted list |
| RangeMerging.MergedKeepsChunks | crates/server/src/routes/reconstruction.rs:176-212 | for any ranges at all, merged ranges are sorted and pairwise non-touching, hold exactly the requested chunks, and contain each non-empty requested range in exactly one of them |
| RangeMerging.MergedIsCanonical | crates/server/src/routes/reconstruction.rs:176-212 | without empty ranges, which registration refuses, the merged list has none either |
| RangeMerging.EmptyRangeIsKept | crates/server/src/routes/reconstruction.rs:200-207 | with an empty range it can: a lone empty range is answered though it requests nothing |
| RangeMerging.CanonicalIsUnique | crates/server/src/routes/reconstruction.rs:176-179 | two canonical range lists over the same chunks are the same list |
| RangeMerging.MergedDependsOnUnion | crates/server/src/routes/reconstruction.rs:176-212 | two lists of proper ranges merge to the same answer if and only if they request the same chunks |
| Paging.ClampLimit | crates/server/src/pagination.rs:23-25 | a page size lies between 1 and 1000, and a request within those bounds is honoured |
| Paging.FromOverfetched | crates/server/src/pagination.rs:64-76 | keeps at most `limit` rows and continues after the last kept row exactly when more were fetched |
| Paging.PageHolds | crates/server/src/storage/index/sqlite_index.rs:323-370 | a page holds, in order, every row beyond the cursor up to its own next cursor, and all of them on the last page |
| Paging.WalkAscends | crates/server/src/pagination.rs:60-76 | however the table changes between pages, keys come out strictly ascending, so none twice |
| Paging.WalkFindsStableRows | crates/server/src/pagination.rs:60-76 | a row present throughout a finished walk is in it |
| Paging.FixedTableWalk | crates/server/src/pagination.rs:60-76 | over a fixed table a walk returns the whole sorted table beyond its start, and finishes within one request more than there are rows |
| Validation.TermChunks | crates/server/src/routes/shard.rs:171-191 | the chunk loop of one term collects the hash and true size of each of its chunks, and their u32 total |
| Validation.ValidateTerm | crates/server/src/routes/shard.rs:121-192 | a term is accepted if and only if it lies inside a stored xorb and its verification hash and declared length match its chunks; a refusal names a true defect of that very term |
| Validation.ValidateFile | crates/server/src/routes/shard.rs:99-201 | a file block is accepted if and only if it is non-empty, carries verification, all its terms are valid and its chunk list hashes to its id; the size recorded is the sum of its chunk sizes |
| Validation.ValidateUpload | crates/server/src/routes/shard.rs:66-202 | a shard is accepted if and only if size, footer, parse and every file block are in order; every refusal names a true defect |
| Validation.AcceptedFileIsSound | crates/server/src/routes/shard.rs:81-92 | every term of an accepted file is in range, its declared length is the sum of its chunk sizes (mod 2^32), and the file's chunk list hashes to its id |
| Registration.AcceptedIff | crates/server/src/routes/shard.rs:66-201 | an upload is accepted exactly if it is at most 64 MiB, has no footer, parses, and each block has terms, verification entries that match the stored chunks' hashes, true lengths and the hash of its chunk list |
| Registration.UnverifiedIsRefused | crates/server/src/routes/shard.rs:107-117 | a shard with a block that lacks verification entries, or terms, is refused and changes nothing |
| Registration.TermAnswers | crates/server/src/routes/shard.rs:122-189 | which answer a term gets: the first check it fails, in the handler's order |
| Registration.FileAnswers | crates/server/src/routes/shard.rs:104-198 | which answer a block gets: no terms, no verification, the first bad term's, or the file hash |
| Registration.UploadAnswers | crates/server/src/routes/shard.rs:66-201 | which answer an upload gets: size, footer and syntax first, then the first defect of the first bad block |
| Registration.RegistrationChanges | crates/server/src/routes/shard.rs:203-250 | shards, file index and chunk rows after an accepted registration, entry by entry |
| Registration.RegistrationClaims | crates/server/src/routes/shard.rs:211-230 | the claims after it: the owner's on the declared files, with the file's size and the time of the first claim, and nobody else's |
| Registration.IndexedFilesAreProven | crates/server/src/routes/shard.rs:83-117 | in every state of a run from the empty store each indexed file's blocks carry verification entries and prove the file on what is stored |
| Servers.Server.constructor | crates/server/src/state.rs:8-12 | an empty server satisfies the whole invariant |
| Servers.Server.PutXorb | crates/server/src/storage/object_store_backend.rs:138-150 | put-if-absent: an existing blob keeps its bytes and its time, and recorded layouts still match |
| Servers.Server.PutShard | crates/server/src/storage/object_store_backend.rs:189-201 | put-if-absent for shards, answering whether it was new |
| Servers.Server.DeleteXorb | crates/server/src/storage/object_store_backend.rs:203-206 | idempotent deletion of one blob; the layout table stays true if the layout went first |
| Servers.Server.PutRows | crates/server/src/storage/index/sqlite_index.rs:98-120 | inserts each new row once, in order, and keeps the others |
| Servers.Server.PutXorbLayout | crates/server/src/storage/index/sqlite_index.rs:138-156 | replaces one layout; the table stays true if it is the stored blob's |
| Servers.Server.RemoveXorb | crates/server/src/storage/index/sqlite_index.rs:158-172 | leaves exactly the rows of other xorbs, in order, and drops one xorb's layout |
| Servers.Server.ClaimFile | crates/server/src/storage/index/sqlite_index.rs:267-289 | afterwards the owner claims the file at the given size, since his first claim on it, and every other claim is as it was |
| Servers.Server.Release | crates/server/src/storage/index/sqlite_index.rs:291-301 | removes one claim and answers whether there was one |
| Servers.Server.RemoveFile | crates/server/src/storage/index/sqlite_index.rs:251-265 | leaves the file unindexed and without owners, and every other file indexed and owned as before |
| Servers.Server.PostXorb | crates/server/src/routes/xorb.rs:64-122 | stores blob, rows and layout exactly when the body is new, within the size limit and valid under its hash; every other answer has its own exact condition and changes nothing; the invariant holds afterwards |
| Servers.Server.RegisterShard | crates/server/src/routes/shard.rs:65-251 | succeeds exactly on a valid upload, answering whether the shard was new; then stores, indexes, claims and records rows; a refusal names a true defect and changes nothing; the invariant is kept |
| Servers.Server.IndexAndClaim | crates/server/src/routes/shard.rs:217-230 | every file of the shard resolves to it and is claimed at its logical size by the uploader |
| Servers.ChunkRows | crates/server/src/routes/shard.rs:232-247 | the rows of the CAS section, each chunk at its position, in order |
| Servers.Server.DeleteFile | crates/server/src/routes/files.rs:159-204 | releases the caller's claim, removes the file with the last one, and answers accordingly; the invariant is kept |
| Servers.Server.Mark | crates/server/src/gc.rs:51-89 | marks exactly the xorbs of blocks whose file resolves to their live shard, skipping missing shards, and stops exactly when a live shard is corrupt |
| Servers.Server.SweepXorbs | crates/server/src/gc.rs:101-118 | a xorb survives if and only if it is marked or in grace, untouched; rows and layouts of the others go and no others do; every object and byte is counted; at no point does a layout lack its blob |
| Servers.Server.SweepShards | crates/server/src/gc.rs:120-133 | a shard survives if and only if it is live or in grace, untouched, and every object and byte is counted |
| Servers.Server.RunGc | crates/server/src/gc.rs:48-145 | from any state at all: aborts untouched exactly on a corrupt live shard, otherwise leaves the specified state with a report in which every object and byte found is either still stored or counted as freed and `skipped_in_grace` equals the unmarked survivors; in a reachable state it never aborts and keeps the invariant |
| Collection.TotalWithout | crates/server/src/gc.rs:116 | stored bytes do not depend on the order objects are listed in |
| Collection.ReachableIff | crates/server/src/gc.rs:58-92 | marking finds exactly the xorbs some block about an indexed file refers to, in the shard the file resolves to |
| Collection.PassKeepsIff | crates/server/src/gc.rs:94-129 | in a reachable state a pass keeps a stored xorb exactly if an indexed file refers to it or now - mtime < grace, and a shard exactly if a file resolves to it or it is that young |
| Collection.GraceBoundary | crates/server/src/gc.rs:97-109 | a xorb nothing refers to stays at age grace - 1 and goes at age grace |
| Collection.ShardGraceBoundary | crates/server/src/gc.rs:121-128 | the same for a shard no file resolves to |
| Collection.SkippedAreYoung | crates/server/src/gc.rs:104-109 | what the report counts as skipped is what nothing needs and is younger than grace |
| Collection.StopsIff | crates/server/src/gc.rs:60-73 | a pass stops, changing nothing, exactly if some indexed file resolves to a stored shard that does not parse |
| Collection.RowsOfDeletedXorbsGo | crates/server/src/gc.rs:110-113 | a chunk location survives a pass if and only if the pass did not delete its xorb |
| Collection.MarkingUnchanged | crates/server/src/gc.rs:51-89 | a pass leaves the live shards and the marking as they were |
| Collection.PassIsIdempotent | crates/server/src/gc.rs:46-145 | a second pass at the same clock and grace changes nothing |
| Collection.SoundFileSurvives | crates/server/src/gc.rs:1-15 | an indexed file of a reachable state survives any pass, with its shard and all its xorbs |
| Invariants.UploadKeepsInv | crates/server/src/routes/xorb.rs:64-122 | an xorb upload keeps the whole invariant: sound blobs, shards and files, matching layouts, distinct rows, exact and correctly sized claims |
| Invariants.RegisterKeepsInv | crates/server/src/routes/shard.rs:65-251 | so does a registration, including re-registration of a file through another shard |
| Invariants.DeleteKeepsInv | crates/server/src/routes/files.rs:159-204 | so does a release |
| Invariants.GcKeepsInv | crates/server/src/gc.rs:48-145 | so does a collection, at any clock and any grace period |
| Invariants.StoredShardIsUpload | crates/server/src/routes/shard.rs:203-208 | after put-if-absent the stored shard holds the uploaded files, whether it was new or not |
| Invariants.MarkReaches | crates/server/src/gc.rs:73-87 | marking reaches every xorb of every block an indexed file resolves to |
| Invariants.RunKeepsInv | crates/server/src/gc.rs:1-15 | every sequence of uploads, registrations, releases and collections keeps the invariant |
| Invariants.EveryRunIsSafe | crates/server/src/gc.rs:1-15 | no run from the empty store, with any clocks and grace periods, leaves an indexed file without its shard or xorbs, or with contents that do not hash to its id |
| Interleaving.RegisterIsThreeMoves | crates/server/src/routes/shard.rs:138-230 | validating, storing the shard and indexing, one right after the other, are the registration handler as one step |
| PassTables.UploadIsThreeMoves | crates/server/src/routes/xorb.rs:99-119 | the three writes of an upload, one right after the other, are the upload handler as one step |
| Interleaving.IndexedIsRegistered | crates/server/src/routes/shard.rs:206-230 | while the xorbs that validation saw are kept, the last step of a registration does what the whole handler would do at that moment |
| Interleaving.MoveConsistent | crates/server/src/gc.rs:101-133 | whatever moves, a pass sweeps only after it has read every live shard, and purges only what its list condemns |
| Interleaving.NewlyDoomedXorb | crates/server/src/gc.rs:101-118 | an xorb becomes one that some pass is about to delete only by being stored or when a pass begins, as long as no shard goes that a pass has still to read |
| Interleaving.NewlyDoomedShard | crates/server/src/gc.rs:121-133 | the same for shards |
| Interleaving.DeletedIsDoomed | crates/server/src/gc.rs:101-133 | what a pass deletes was doomed beforehand |
| Interleaving.DeleteBlobKeepsInv | crates/server/src/gc.rs:114 | a blob no indexed file uses and no layout describes can go: the whole invariant is kept |
| Interleaving.MoveKeepsFiles | crates/server/src/gc.rs:48-145 | every move of the interleaved system keeps blobs, shards, indexed files, rows and claims sound |
| Interleaving.PendingStaysTrue | crates/server/src/routes/shard.rs:138-149 | what a registration under way has validated stays true until it indexes, if no registration under way refers to a doomed object |
| Interleaving.MoveAvoids | crates/server/src/gc.rs:10-15 | after every move the shard and the xorbs of every indexed file are out of the way of every pass |
| Interleaving.MoveKeeps | crates/server/src/gc.rs:48-145 | every single move keeps the interleaved invariant: files, registrations under way, and nothing needed doomed, under the same two conditions |
| Interleaving.InterleavedRunIsSafe | crates/server/src/gc.rs:10-15 | with any number of passes, uploads, registrations and releases interleaved step by step, indexed files stay reconstructable and undoomed at every point, if no registration under way ever refers to a doomed object and no shard goes that another pass has still to read |
| Interleaving.MarksReachable | crates/server/src/gc.rs:52-92 | a pass that has just begun will mark exactly what is reachable |
| Interleaving.MarksStay | crates/server/src/gc.rs:60-92 | no move takes away what a pass will have marked, unless it deletes a shard the pass has still to read |
| Sparing.ListsStayTrue | crates/server/src/gc.rs:101-133 | if nothing is stored while a list condemns it, what a list condemns is either gone or still of the listed time |
| Sparing.SparedAvoids | crates/server/src/gc.rs:10-15 | then a registration whose objects are marked or young to every pass refers to nothing doomed |
| Sparing.AvoidingIsBeingSpared | crates/server/src/gc.rs:10-15 | before any pass has listed, referring to nothing doomed is exactly being marked or young to every pass |
| Sparing.SparedRunIsSafe | crates/server/src/gc.rs:10-15 | overlapping passes are safe if everything registrations under way refer to is marked or young and nothing is stored again while a list condemns it |
| Sparing.OnePassIsFresh | crates/server/src/main.rs:101-110 | with at most one pass under way a condemned object is still stored as listed, so it cannot be stored again, and no shard goes that is still to be read |
| Sparing.OnePassRunIsSafe | crates/server/src/main.rs:101-110 | hence while passes do not overlap, being marked or young is enough |
| Sparing.StartIsClear | crates/server/src/gc.rs:48-145 | the empty server meets the hypotheses of these runs |
| LayoutWrites.LayoutsStayTrue | crates/server/src/routes/xorb.rs:94-118 | a move keeps every recorded layout a description of a stored blob, if no pass touches a xorb whose upload is in flight |
| LayoutWrites.InterleavedRunKeepsInv | crates/server/src/gc.rs:48-145 | an interleaved run that meets both conditions keeps the whole invariant of the stored state |
| Completion.CompletionDeletesDoomed | crates/server/src/gc.rs:101-133 | from any point, every way to complete the passes under way by their own moves deletes exactly the doomed xorbs and shards: unmarked and old, by the list once it is taken; if no pass has still to read a doomed shard |
| Completion.PassesCanComplete | crates/server/src/gc.rs:101-133 | from any point at which every stored shard parses there is such a completion |
| Completion.SafeIsNotCorrupt | crates/server/src/gc.rs:72-73 | in every safe world every stored shard parses, so no pass fails on one and all can complete |
| Completion.UninterruptedPass | crates/server/src/gc.rs:48-145 | a pass nothing interferes with leaves the objects of the collection step |
| PassTables.UninterruptedPassTables | crates/server/src/gc.rs:110-118 | and the chunk rows and layouts of the collection step |
| PassTables.CompletionPurges | crates/server/src/gc.rs:110-118 | while no upload is in flight, completing the passes under way leaves exactly the rows and layouts of xorbs that are not doomed |
| Completion.SurvivesPassesIff | crates/server/src/gc.rs:101-133 | a file sound now survives the completion of the passes under way if and only if neither its shard nor any of its xorbs is doomed |
| Completion.PendingSurvivesIff | crates/server/src/routes/shard.rs:206-230 | a registration that indexes once the passes under way have completed leaves a file sound if and only if neither its shard nor any xorb the file uses was doomed, if no pass has still to read a doomed shard |
| Completion.RegistrationStaysSafe | crates/server/src/gc.rs:10-15 | a registration whose xorbs and shard no pass dooms can be made while passes are under way, and everything stays safe |
| Completion.RegistrationSurvivesIff | crates/server/src/gc.rs:101-133 | a file registered while passes are under way survives their completion if and only if neither the shard as then stored nor any xorb it uses is doomed |
| Completion.AcceptedThenStranded | crates/server/src/gc.rs:110-114 | the index purge does not protect a registration: one that comes after the purge is accepted and indexed, and the deletion that follows strands its file |
| Completion.ValidatedThenLost | crates/server/src/routes/shard.rs:138-149 | nor does its own validation: a deletion between validation and the index writes leaves the file indexed without its xorb |
| Completion.AcceptedThenShardLost | crates/server/src/storage/object_store_backend.rs:189-201 | nor do spared xorbs: a registration through a shard stored before, old and not live, is accepted and indexed, and the shard sweep strands its file |
| Completion.StaleListStrands | crates/server/src/storage/object_store_backend.rs:83-94 | nor does youth: a pass deletes what its list condemns, however young it has become since, and strands the file |
| Completion.StaleMarkStrands | crates/server/src/gc.rs:60-69 | nor does being indexed: a pass that comes too late to read a shard marks nothing on its behalf, and deletes an old xorb that a file, indexed through another shard since, still uses |
| ExampleRuns.StrandingHappens | crates/server/src/gc.rs:110-114 | six moves from the empty store, each of them possible, after which a registration loses its xorb right after it is accepted, or right after it has validated |
| ExampleRuns.OverlapLosesYoungXorb | crates/server/src/storage/object_store_backend.rs:83-94 | twelve moves from the empty store lead two passes to where a registration over an xorb young to both is accepted and loses it to the older list |
| ExampleRuns.IndexedFileLost | crates/server/src/gc.rs:60-69 | fourteen moves from the empty store lead to where a file, indexed all along, loses its xorb in the next five |
| ExampleRuns.LayoutLeftBehind | crates/server/src/routes/xorb.rs:94-118 | seven moves from the empty store leave a layout for an xorb that is not stored |
| ExampleRuns.ShardLossHappens | crates/server/src/storage/object_store_backend.rs:189-201 | from the empty store through two registrations and a pass to where a registration over a marked xorb is accepted and loses its shard |
| ExampleRuns.RepostingLoses | crates/server/src/routes/xorb.rs:76-81 | a xorb stored at 0, posted again at 100 and collected at 100 with grace 50 is gone when its shard comes |
| ExampleRuns.LongTermHappens | crates/server/src/routes/shard.rs:183-191 | an upload and a registration from the empty store index a file of 4 GiB whose first byte is refused as past the end |
| InFlight.StoredIffKept | crates/server/src/gc.rs:101-114 | over any run a xorb nobody re-uploads is stored in the end if and only if every collection found it marked or in grace |
| InFlight.AcceptedLaterIff | crates/server/src/routes/shard.rs:138-149 | in any later reachable state a planned shard is accepted if and only if it is at most 64 MiB and its xorbs are stored, whoever stored them |
| InFlight.RegistrationAfterIff | crates/server/src/gc.rs:10-15 | after posting and any events that do not re-upload the plan's xorbs, the registration is accepted if and only if every collection found each of them marked or in grace |
| InFlight.GraceProtectsUploads | crates/server/src/gc.rs:10-15 | if every collection since comes within grace of the posts, and of the first upload of xorbs that were stored before, only the shard's size can be objected to |
| InFlight.RepostedXorbIsLost | crates/server/src/routes/xorb.rs:76-81 | posting a stored xorb again changes nothing, so an old unmarked one goes with the next collection |
| Grace.YoungStaysAlong | crates/server/src/gc.rs:10-15 | an xorb young to every pass under way, with no list that has another time for it, stays stored and undoomed whatever moves, if the passes that begin find it young too |
| Grace.GraceProtectsAmongPasses | crates/server/src/gc.rs:10-15 | if each xorb a plan refers to is, from some point of an interleaved run on, young to every pass, the planned shard is accepted unless it exceeds 64 MiB, and refers to nothing doomed |
| Grace.YoungRegistrationIsSafe | crates/server/src/gc.rs:10-15 | so it can be registered while passes are under way, all staying safe, if the shard is new and young as well |
| Discovery.UploadKeepsIndexed | crates/server/src/routes/xorb.rs:94-119 | an upload leaves every chunk of every stored xorb located and every stored xorb with a layout |
| Discovery.GcKeepsIndexed | crates/server/src/gc.rs:101-118 | so does a collection: what it purges belongs to deleted xorbs only |
| Discovery.RunKeepsIndexed | crates/server/src/routes/xorb.rs:91-119 | so does every run |
| Discovery.StoredChunksAreFound | crates/server/src/routes/dedup.rs:29-47 | after any run from the empty store, looking up any chunk of any stored xorb finds that xorb, at the chunk's position, with its layout |
| Ownership.ClaimTimeKept | crates/server/src/storage/index/sqlite_index.rs:267-289 | registering again refreshes a claim's size but never its time |
| Ownership.ReleaseIsExact | crates/server/src/routes/files.rs:166-203 | in a reachable state a release succeeds exactly for a claimant, answers the number of owners left, removes the file exactly when none is, and touches no other file |
| Ownership.ReleaseTouches | crates/server/src/routes/files.rs:159-204 | a release takes away the caller's claim on that file and nobody else's, and touches no table but index and claims |
| Ownership.OwnerlessNeedsAdmin | crates/server/src/routes/files.rs:172-185 | a file indexed without any owner is removed by admins only |
| Ownership.AdminIsNoOwner | crates/server/src/routes/files.rs:187-193 | being an admin releases nobody else's claim |
| UsageReports.Usage | crates/server/src/storage/index/sqlite_index.rs:372-405 | the report has one row per claimant with the number and sum of his claims, the number of claimed files, and the sum of each file's largest claim |
| UsageReports.UsageIsExact | crates/server/src/storage/index/sqlite_index.rs:372-405 | in a reachable state each owner's row counts the files he claims and adds up their sizes, the claimed files are the indexed ones, and the unique bytes add up the size of each indexed file once |
| UsageReports.ClaimIsFileSize | crates/server/src/storage/index/sqlite_index.rs:382-383 | every claim on a file carries the length of its content, so claims on one file agree |
| UsageReports.SharedFileBytes | crates/server/src/storage/index/sqlite_index.rs:372-405 | the bytes of all claims on one file are the length of its content times the number of its owners |
| Reconstruction.IndexedFileIsValid | crates/server/src/routes/reconstruction.rs:110-119 | the block a reader finds for an indexed file is a valid one |
| Reconstruction.OffsetsAreBoundaries | crates/server/src/routes/reconstruction.rs:257-272 | whichever path answers, the offsets are the frame boundaries of the stored blob |
| Reconstruction.PlanIsFetchMap | crates/server/src/routes/reconstruction.rs:223-327 | with all offsets known, the entries are one per xorb with a fetchable range, whatever order the xorbs come in |
| Reconstruction.TermIsCovered | crates/server/src/routes/reconstruction.rs:274-295 | the client finds, for every term of an answer, one fetch entry that covers it, with the byte span of whole frames |
| Reconstruction.SpanDecodes | python/src/openxet_fsspec/client.py:119-126 | decoding a term inside the fetched span of a covering range gives the term's chunks |
| Reconstruction.TermIsFetched | python/src/openxet_fsspec/client.py:103-126 | fetching any term of an answer yields exactly the bytes it stands for |
| Reconstruction.WholeDownload | python/src/openxet_fsspec/client.py:88-134 | in every reachable state, whoever may read an indexed file downloads its whole content, and that content's chunk list hashes to the file's id |
| Access.StrangersFindNothing | crates/server/src/routes/files.rs:27-48 | a caller who is no admin and owns no claim gets NotFound, from the server and for every download, whatever he asks for and whether or not the file exists |
| Access.UnindexedIsNotFound | crates/server/src/routes/reconstruction.rs:101-106 | so does everybody for a file that is not indexed |
| Access.DownloadsIffOwner | crates/server/src/routes/files.rs:27-48 | a whole download succeeds exactly for an indexed file and an admin or one of its owners, and is NotFound otherwise |
| Access.RefusedAsMissingIff | crates/server/src/routes/reconstruction.rs:98-106 | any request is answered NotFound exactly if the caller may not see the file or it is not indexed |
| Access.ClaimIffGranted | crates/server/src/routes/files.rs:27-48 | at the end of any run from the empty store an owner has a claim exactly if a registration of his declared the file and was accepted, and he has not released it since |
| Access.ReadsIffGranted | crates/server/src/routes/files.rs:27-48 | so exactly then he downloads it, and otherwise he reads nothing of it |
| Access.InvertedIsRefused | crates/server/src/routes/reconstruction.rs:58-60 | a span that starts past its end is not satisfiable |
| Access.DamagedShardAnswers | crates/server/src/routes/reconstruction.rs:108-121 | what is answered when the file's shard is gone, does not parse, or has no block about the file |
| Answers.AnswerIsExact | crates/server/src/routes/reconstruction.rs:180-298 | an answer names exactly the xorbs of its terms, and for each exactly the needed chunks, as inclusive byte spans of whole frames that neither overlap nor touch |
| Answers.FirstBlockIsServed | crates/server/src/routes/reconstruction.rs:113-137 | of several blocks about the file the first is served, term by term |
| Answers.MissingXorbAnswers | crates/server/src/routes/reconstruction.rs:260-272 | when one xorb of the file is gone with its layout, the answer is NotFound |
| Answers.ClientAnswers | python/src/openxet_fsspec/client.py:103-126 | why the client cannot put a term together: nothing covers it, the span is refused, or the chunks do not decode |
| RangeHeaders.ClientHeaderParses | python/src/openxet_fsspec/client.py:96-97 | the server reads back the numbers the client wrote if both are given and are u64 numbers, and refuses the header otherwise |
| RangeHeaders.ParsesIff | crates/server/src/routes/reconstruction.rs:38-57 | any header text is a span exactly if it is `bytes=`, a number, a dash and a number, where the first dash counts |
| RangeHeaders.NumberIff | crates/server/src/routes/reconstruction.rs:51-56 | a number is an optional plus sign and at least one digit, and below 2^64 |
| RangeHeaders.SameNumber | crates/server/src/routes/reconstruction.rs:51-56 | a plus sign and leading zeros change nothing |
| RangeHeaders.SplitsAtFirst | crates/server/src/routes/reconstruction.rs:46-48 | a text splits at the first dash |
| RangeHeaders.DecimalParses | crates/server/src/routes/reconstruction.rs:50-55 | a decimal number is read back if and only if it is a u64 |
| Reconstruction.RangeDownload | python/src/openxet_fsspec/client.py:128-134 | for files whose terms fit u32 lengths, a range read returns exactly bytes a..min(b, size - 1), is refused as unsatisfiable exactly when a is past the end, and as malformed when b is no u64 |
| Reconstruction.RangeReadsExactIff | crates/server/src/routes/reconstruction.rs:140-173 | range reads of a file are exact for all ranges if and only if each of its terms unpacks to less than 4 GiB and its positions are u64 numbers |
| Reconstruction.OverlongTermBreaksRanges | crates/server/src/routes/shard.rs:183-191 | with a longer term, the first byte past the declared size is refused although it is there |
| Reconstruction.OpenEndedIsRefused | python/src/openxet_fsspec/client.py:96-97 | a read with a start and no end is always refused |
| Serving.FindFile | crates/server/src/routes/reconstruction.rs:110-119 | finds the first block about the file, if any |
| Serving.TermsFor | crates/server/src/routes/reconstruction.rs:92-174 | authorisation, lookup, parse, header text and trimming in the source's order, each with its own error |
| Serving.OffsetsFor | crates/server/src/routes/reconstruction.rs:257-272 | layout first, blob when the layout is missing or lacks payload lengths |
| Serving.SpansFor | crates/server/src/routes/reconstruction.rs:274-295 | each merged range with its inclusive byte span, leaving out ranges past the known chunks |
| Serving.GetReconstruction | crates/server/src/routes/reconstruction.rs:329-359 | the handler computes exactly the answer the download theorems are about |
| Serving.GetXorb | crates/server/src/storage/object_store_backend.rs:107-136 | serves the requested span with its end clamped to the object, exactly for a stored object with the start inside it |
| Serving.FindCovering | python/src/openxet_fsspec/client.py:104-115 | the first fetch entry that contains the term's range, if any |
| Serving.FetchOne | python/src/openxet_fsspec/client.py:103-126 | fetches and decodes one term as the download theorems describe |
| Serving.Download | python/src/openxet_fsspec/client.py:88-134 | the client's loop over terms, join and final slice compute exactly the download the theorems are about |
| Serving.TriplesFor | crates/server/src/routes/dedup.rs:54-78 | layout first, blob otherwise |
| Serving.GetDedup | crates/server/src/routes/dedup.rs:22-126 | answers one keyed block per located xorb if and only if the chunk is located and all located xorbs are still stored; otherwise names an xorb that is not |
| RoundTrip.ContentIsFixed | crates/server/src/routes/shard.rs:81-92 | a file id names one content: any two reachable states that index it agree on its bytes |
| RoundTrip.TriplesDescribeStored | crates/server/src/routes/dedup.rs:54-78 | in a reachable state either path describes the stored chunks, and only stored xorbs are described |
| RoundTrip.ApplyKeepsSound | crates/wasm/src/lib.rs:180-187 | applying a server's dedup answer adds only placements of stored chunks with the very same bytes, which stay sound while the xorbs it names are kept |
| RoundTrip.SessionIsSound | crates/wasm/src/lib.rs:120-189 | so does a whole session of queries and answers in any order, for as long as the xorbs the answers name are kept |
| RoundTrip.SealIsAcceptable | crates/wasm/src/lib.rs:204-218 | a sealed xorb within the caps passes upload validation |
| RoundTrip.PlannedFileIsValid | crates/wasm/src/lib.rs:299-344 | the planned file block is valid wherever its placements are sound, and stands for the original chunks |
| RoundTrip.PlanIsAcceptedIff | crates/server/src/routes/shard.rs:65-202 | once its xorbs are uploaded, a plan's shard is accepted if and only if it is at most 64 MiB |
| RoundTrip.UploadIndexesFile | crates/server/src/routes/shard.rs:203-230 | an accepted plan leaves the file indexed, claimed by its owner, and standing for exactly the original bytes |
| RoundTrip.UploadThenDownload | python/src/openxet_fsspec/client.py:88-134 | pack, upload, register, and later query, fetch, decode and join: the original bytes, right away and after any further run while the file is indexed |
| RoundTrip.UploadThenRange | python/src/openxet_fsspec/client.py:128-134 | every sub-range of an uploaded file reads back exactly, for any reader, after any further run while the file is indexed: always for a file under 4 GiB, for a larger one if the terms it is then indexed with fit |
| RoundTrip.TermWithinXorb | crates/wasm/src/lib.rs:316-322 | a term unpacks to at most what its xorb does, its chunk indices being distinct |
| RoundTrip.PlannedTermsFit | crates/wasm/src/lib.rs:316-322 | no plan has a term of 4 GiB or more, unless the file is that large and a deduplicated chunk was found in a xorb that unpacks to 4 GiB or more |
| RoundTrip.FreshUploadFits | crates/wasm/src/lib.rs:316-322 | so right after its upload a file is indexed with terms that fit |

## Left out

- DecodeChunks: LZ4 is one library function that may fail; the Python client's choice of LZ4 container is not modelled.
- TermsFor: a header value that is no visible ASCII text is not told apart from other malformed ones; both are refused alike.
- TrimTerms: total sizes are unbounded; a file of 2^64 bytes or more would wrap the source's u64 total.
- Usage: the rows are a map; their order by owner is not modelled.
- GetReconstruction: when several xorbs fail, the first in term order decides the error; the source reports whichever concurrent lookup fails first. A merged range that ends at chunk 0 is dropped where the source would panic; no valid term makes one.
- OffsetsFor: stored metadata whose columns differ in length counts as corrupt; the source would index past the shorter one. Reachable states hold no such metadata.
- Download: the answer and all fetches see one server state; what happens to a download while a collection deletes its xorbs is not modelled.
- GetDedup: the response is its keyed blocks; the shard bytes, byte counts and expiry around them are not modelled.
- BuildPlan: assumes the serialiser writes frames its own reader takes back, so its error returns do not occur.
- constructor: an upload session takes the chunk list; the chunker and the refusal of empty input are not modelled.
- FixedTableWalk: page rows are their keys; listed columns and owner filters are not modelled.
- Among interleaved moves, a pass takes its clock when it begins, not when it has marked; its value is any number.
- Among interleaved moves, a registration reads all its xorbs in one move and writes its files, claims and rows in one; an upload checks, validates and stores its blob in one.
- Overlapping uploads of one xorb: the code gives no guarantee there.
- Overlapping `delete_file` calls on one file, or one overlapping a registration of it: the code gives no guarantee there.
- Chunk locations taken from a shard's CAS section: stored as given, unchecked by the code, so nothing is claimed about the xorbs they name beyond what `GetDedup` states.
- Overflow of u32 chunk indices (`index + 1`): needs an xorb of 2^32 chunks.
- HTTP, authentication, signed URLs, cursor text, logging and configuration: no bookkeeping in them.
- I/O errors of the databases and object stores: a failing write in the middle of a handler is not modelled.
- The Postgres index and the TypeScript client: they repeat the SQLite index and the Python client.
- `get_file`, the xorb listing and the v2 response shapes: they re-present the same data.
