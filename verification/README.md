# Capsule storage engine, in Dafny

A model of the storage engine: the append-only log with its transactions, the capsule registry with its
content store, the write pipeline that deduplicates by content hash (sequential and asynchronous), deletion,
the reference-count collector and the start-up reconcile pass; on top of it the block volumes with their
optimistic compare-and-swap, and beside it the counting Bloom filter, the file namespace with its paths, the
layout planner, the trait-based pipeline with its own collector, the key manager with the authentication tag, the
audit log, and the placement of capsules on nodes.

`dafny verify dfyconfig.toml` checks everything.

## How it is built

* `Types`, `Codec`: the records, and preparing and reading one chunk. Hashes, ciphers, codecs and the entropy
  estimate are the function-valued fields of `Env`; what is assumed of them (`CollisionFree`, `SoundCipher`)
  is named in every statement that uses it.
* `NvramSim`, `Registry`: the log, its transactions and the registry, as functions on values and as the
  classes `NvramLog`, `NvramTransaction` and `CapsuleRegistry` that are proved against them. A memory image and
  its saved file are separate fields; `Valid` says they agree.
* `Store`: log and registry together, the thirteen persistence steps any operation can make, and the invariant
  `Inv(env, store, f)`: a segment's count is its occurrences over all capsules plus its occurrences in `f`, the
  multiset of references that an unfinished or failed operation holds. A crash falls between two steps.
* `Programs` (sequential write, delete), `AsyncWrite`, `AsyncCommit`, `AsyncCorrect`, `AsyncMain` (asynchronous
  write), `Refinement` (it ends where the sequential one ends), `Recovery` (sweep, reconcile, reopening),
  `Runs` (operations with a crash anywhere, against a map from capsule ids to what they read), `Histories` (sequences of them: what
  stays, round trips, starting empty).
* `Records`, `Sharing`: what writes put into the log, when they succeed, what they share, and what reading makes of records
  and bytes that do not belong together.
* `Interleaving`, `Concurrency`, `Isolation`, `Alone`: a write inside a delete; any number of writes and deletes interleaved call
  by call; what they read and write as long as no increment meets a segment that is about to be removed; and that a call
  which nobody disturbs takes the steps of its program.
* `Pipeline`: the class `WritePipeline`, loops and all, tied to those programs method by method.
* `Volumes`, `VolumeSafety`, `VolumeRuns`: the volume protocol as a state machine of any number of calls, its
  invariant, and what follows. `BlockView`: the class over `WritePipeline`; every stretch between two lock or
  pipeline boundaries takes one step of the machine, and `Yield` stands for whatever other calls do in between.
* `Bloom`, `Paths`, `Namespace`, `Layout`, `Modular`, `Keys`, `Audit`, `Placement`: one component each. `Collectors`
  compares the collectors of `Recovery` and `Modular`.

## What the proofs turned up

* Two log transactions that begin before either has staged anything stage the same bytes. Once one has staged
  everything before the other begins, the ranges are disjoint, but the last commit puts the allocator at its own end:
  the one that began first must not commit last (`BothCommittedOkIff` has the exact condition).
  A transaction that rolls back, or fails, after the other has committed does the same harm.
* Nothing keeps a write from falling between the steps of a delete. If it increments a segment whose count has just
  reached zero, its capsule names a removed segment. That is the only way in which interleaved writes and deletes harm a
  capsule (`CapsulesLiveIff`); a write can also fail because what it has looked up is gone when it increments it.
* The cleanup after a refused capsule id looks only at recorded registrations: with dedupe off there are none,
  and every new segment stays, counted but unreferenced, until the next start-up.
* A chunk that is stored raw but is itself a frame the decoder accepts reads back as something else; in the
  trait pipeline a raw chunk that equals the compressed form of an earlier one reads back as that one.
* Segment lengths are truncated to 32 bits without a check.
* The next segment id is saved only with the next registry change; ids stay fresh because every id a capsule
  or content entry names has been saved with it.
* The block view's version number never decides a swap that the capsule id does not: it saturates, the id does
  not. A writer whose volume was deleted, and a writer or deleter whose save fails, leave a capsule behind.
* A backslash in a component becomes a slash after the path has been taken apart. A component so written is stored
  without anybody making the directories inside it: the namespace stays a tree only if they are there. A file in the
  way of a new file is noticed only after the new file's capsule has been written; a directory that is made meanwhile is
  not noticed and gives way to the file.
* A counting filter with u8 counters loses increments at 255. Once it has, removals can make it deny a key that is
  stored, and the registry then stores its content again.
* Records with different fields present can be authenticated by the same bytes.
* An audit log restarted right after a rotation begins a new chain. If the path cannot be opened again after a
  rotation, records go to the renamed file until it can.
* In the trait pipeline, two misread chunks can make up for each other, so that a capsule reads back although not
  every chunk of it does.
* A placement goal of no data loss is compiled to two replicas even when only one node is fit; the sovereignty check of
  the finished actions lets everything pass, and no migration ever asks for a transformation.

## Assumptions

Saves are atomic and do not fail. An append's bytes and its saved map are one step; a crash between them leaves what a
torn write of all the bytes leaves, which is covered (`Io`: writes to the log file can stop after any number of bytes).
Between its begin and its end a transaction is the only writer. Before every operation each stored count has room for
the operation's chunks below the u32 limit (`Room(log, n)`: every count plus `n` is at most 2^32 - 1; `Roomy` for
histories): a bound on the counts of the moment, not on how much is ever written. Hashes do not collide and the cipher
is sound where a statement says so. For block volumes, contents read back as themselves (`legible`, a set of contents
closed under the patches). Capsule ids are never issued twice to block volumes. The order in which hash maps are walked,
the order in which prepared chunks arrive, and the interleaving of volume calls are arbitrary.

In `Runs`, `Histories`, `VolumeRuns` and `BlockProtocol` a call of the pipeline (write, read, delete) runs alone, from its
first step to its last or to a crash. Nothing in the pipeline enforces that: it has no lock around a call. For sequential
writes and deletes `Concurrency` and `Isolation` do without the assumption, and say exactly what it hides.

The volume results assume that the view is opened with the key manager that its segments were written with, or that
none of them is encrypted (`Backed`); `Runs` and `Histories` speak of the bytes that a reader with the keys gets, and
`Pipeline.KeysNeededIff` says when one without them gets the same.

## Model

| member | source | states |
|---|---|---|
| NvramSim.AppendOk | crates/nvram-sim/src/lib.rs:88-134 | a new segment is appended past every live one, leaves all of them intact, and reads back its bytes if and only if its length fits the u32 length field |
| NvramSim.StageKeepsIff | crates/nvram-sim/src/lib.rs:285-323 | staging past every live and every staged segment keeps the transaction in order exactly when the length fits the u32 length field |
| NvramSim.CommitOk | crates/nvram-sim/src/lib.rs:365-410 | a commit makes exactly the staged segments readable, each with its bytes, moves no earlier one, and keeps the byte ranges disjoint |
| NvramSim.WriteAllReads | crates/nvram-sim/src/lib.rs:365-385 | after any prefix of a commit's writes the old segments are intact and the written ones read back |
| NvramSim.TornCommitKeeps | crates/nvram-sim/src/lib.rs:386-423 | a commit that fails after any number of bytes publishes nothing and disturbs no earlier segment |
| NvramSim.BothCommittedOkIff | crates/nvram-sim/src/lib.rs:231-410 | two transactions staged side by side leave the log in order, committed one after the other, exactly if their byte ranges are disjoint and the allocator, reset to the second one's end, lies above the first one's segments |
| NvramSim.FirstReadsIff | crates/nvram-sim/src/lib.rs:365-410 | after both commits a segment of the first reads what was staged exactly if the second wrote no different byte into its range |
| NvramSim.BegunTogetherClobber | crates/nvram-sim/src/lib.rs:231-234 | two that begin before either stages never leave the log in order |
| NvramSim.BegunLaterOrderDecides | crates/nvram-sim/src/lib.rs:365-410 | if one begins after the other has staged everything, committing it last is fine, and committing it first is fine only if it holds no byte |
| NvramSim.RollbackAfterCommitIff | crates/nvram-sim/src/lib.rs:412-423 | rolling one transaction back after another has committed leaves the log in order exactly if the other's segments end where this one began |
| NvramSim.TornAfterCommitIff | crates/nvram-sim/src/lib.rs:386-391 | so does a commit that fails after any number of bytes; each of the other's segments reads back exactly if no byte that was written into it differs |
| NvramSim.NvramLog.Open | crates/nvram-sim/src/lib.rs:23-53 | opening puts the allocator at the end of the file |
| NvramSim.NvramLog.AppendSegment | crates/nvram-sim/src/lib.rs:88-134 | the log after an append, whole or failed; memory and saved map agree |
| NvramSim.NvramLog.IncrementRefcount | crates/nvram-sim/src/lib.rs:137-157 | count, flag and access count after an increment, saturating at u32 |
| NvramSim.NvramLog.DecrementRefcount | crates/nvram-sim/src/lib.rs:160-177 | the count after a decrement; the two errors change nothing |
| NvramSim.NvramLog.RemoveSegment | crates/nvram-sim/src/lib.rs:180-188 | the segment leaves the map, its bytes stay |
| NvramSim.NvramLog.Read | crates/nvram-sim/src/lib.rs:190-206 | the bytes of a segment's range, or why not |
| NvramSim.NvramTransaction.AppendSegment | crates/nvram-sim/src/lib.rs:285-323 | staging moves the shared allocator |
| NvramSim.NvramTransaction.SetSegmentMetadata | crates/nvram-sim/src/lib.rs:325-352 | only a staged segment can be revised |
| NvramSim.NvramTransaction.Commit | crates/nvram-sim/src/lib.rs:365-410 | commits once: the committed log, or the torn one with the allocator reset |
| NvramSim.NvramTransaction.Rollback | crates/nvram-sim/src/lib.rs:412-423 | the allocator is where it was, nothing is staged |
| Registry.RefsSplit | crates/capsule-registry/src/lib.rs:280-308 | references over all capsules are those of one capsule and those of the rest |
| Registry.RefsMember | crates/capsule-registry/src/lib.rs:280-308 | a segment is referenced if and only if some capsule lists it |
| Registry.CapsuleRegistry.Open | crates/capsule-registry/src/lib.rs:243-266 | capsules, content store and next id come from the file |
| Registry.CapsuleRegistry.AllocSegment | crates/capsule-registry/src/lib.rs:326-331 | a fresh id, not yet saved |
| Registry.CapsuleRegistry.CreateCapsuleWithSegments | crates/capsule-registry/src/lib.rs:280-308 | adds the capsule and saves, or refuses a taken id |
| Registry.CapsuleRegistry.RegisterContent | crates/capsule-registry/src/lib.rs:358-369 | the content entry, saved |
| Registry.CapsuleRegistry.DeregisterContent | crates/capsule-registry/src/lib.rs:371-386 | removes the entry only if it names this segment |
| Registry.CapsuleRegistry.DeleteCapsule | crates/capsule-registry/src/lib.rs:401-410 | hands out the removed capsule, saved |
| Codec.PreparedDecrypts | crates/capsule-registry/src/pipeline.rs:119-189 | a prepared chunk authenticates, decrypts to what was compressed, and carries that content's hash |
| Codec.PrepareFaithfulIff | crates/compression/src/lib.rs:252-310 | a prepared chunk reads back as itself if and only if it was stored compressed or is no foreign frame |
| Codec.CompressedIff | crates/compression/src/lib.rs:252-310 | a chunk is stored as the codec's frame exactly if the policy compresses, its first 1024 bytes (of a chunk that long) are not high-entropy, and the frame is shorter and decodes to the chunk; otherwise as it is; and when compression errs, and how |
| Codec.LevelNearest | crates/compression/src/lib.rs:154-174 | the codec is given the policy's level, or the nearest that it accepts |
| Codec.PreparedExact | crates/capsule-registry/src/pipeline.rs:562-632 | a prepared chunk is enciphered exactly if the policy encrypts and a key version is loaded, then under that version, with the tweak of its hash and the tag over the enciphered bytes; otherwise its bytes are the packed ones; and when preparation errs, and how |
| Codec.RawFrameMisread | crates/capsule-registry/src/pipeline.rs:1541-1555 | counterexample: a raw chunk that happens to be a frame is misread |
| Codec.ChunksPartition | crates/capsule-registry/src/pipeline.rs:557-560 | the chunks partition the data, all but the last full |
| Store.StepKeepsInv | crates/capsule-registry/src/pipeline.rs:481-793 | every persistence step of every operation keeps: disjoint ranges, live references, indexed hashes, exact counts (capsules plus what the operation holds), flags, fresh ids |
| Store.StepKeepsReads | crates/capsule-registry/src/pipeline.rs:1447-1567 | no step changes what a capsule reads, unless it drops it |
| Store.ProgramKeepsInv | crates/capsule-registry/src/pipeline.rs:481-793 | the same over any sequence of allowed steps |
| Programs.WriteLoopOk | crates/capsule-registry/src/pipeline.rs:557-776 | the sequential loop takes allowed steps only and holds exactly its segment list, mid-write too |
| Programs.WriteLoopReads | crates/capsule-registry/src/pipeline.rs:557-776 | its segments read the chunks in order, dedup hits included |
| Programs.SyncWriteOk | crates/capsule-registry/src/pipeline.rs:534-826 | the whole sequential write: exact counts after success; after failure the counts exceed the references by exactly the chunks taken |
| Programs.SyncSucceedsIff | crates/capsule-registry/src/pipeline.rs:534-826 | the sequential write succeeds exactly if every chunk can be prepared, every chunk that is not a duplicate can be appended, and the id is free; otherwise its error is that of the first chunk that fails, or the refused id |
| Programs.SyncWriteShows | crates/capsule-registry/src/pipeline.rs:534-826 | at every step every capsule reads as before; the last step of a successful write adds the new one with its data |
| Programs.DeleteOk | crates/capsule-registry/src/pipeline.rs:481-510 | a delete succeeds exactly on a known capsule, never meets a zero count, and gives back exactly its references |
| Programs.DeleteShows | crates/capsule-registry/src/pipeline.rs:481-510 | at every step of a delete the other capsules read as before |
| Records.SyncSucceedsOn | crates/capsule-registry/src/pipeline.rs:534-826 | in terms of the data: it succeeds exactly if the id is free, the codec does not fail on any chunk, none that is to be enciphered is too short, and the device works for every chunk whose content is neither stored nor that of an earlier chunk |
| Records.WriteRecords | crates/capsule-registry/src/pipeline.rs:562-776 | every segment that a write makes, sequential or asynchronous, holds one of its chunks: packed, labelled, hashed, enciphered, tagged just as policy and key version say; no other segment's record or bytes change |
| Records.UnreadableIff | crates/capsule-registry/src/pipeline.rs:1470-1476 | a pipeline without keys cannot read a capsule of new segments exactly if it was written with keys under an encrypting policy (and is not empty) |
| Records.ReadFaults | crates/capsule-registry/src/pipeline.rs:1465-1539 | a read succeeds exactly if no segment is at fault, and fails with the fault of the first that is: gone, out of the file, no key, a wrong tag, too short |
| Records.IntegrityIff | crates/capsule-registry/src/pipeline.rs:1502-1533 | the read fails for integrity exactly if that segment is encrypted, the keys are there, and the tag over its stored bytes under its own key version, format version and tweak is not the stored one |
| Records.TamperedRefused | crates/capsule-registry/src/pipeline.rs:1528-1533 | a capsule with a segment whose stored bytes do not carry their tag is never read |
| Sharing.WriteShares | crates/capsule-registry/src/pipeline.rs:634-745 | after a write, sequential or asynchronous, two of its chunks have one segment exactly if their contents have one hash, and a chunk has an old segment exactly if the content store knew that hash; with dedupe off every chunk has a new segment of its own |
| Interleaving.WriteInsideRelease | crates/capsule-registry/src/pipeline.rs:481-510 | a write of a duplicate that falls between a delete's last decrement and its removal of the content entry succeeds and names a removed segment; later it is safe |
| Concurrency.GoShape | crates/capsule-registry/src/pipeline.rs:481-776 | any number of writes and deletes, one log or registry call at a time: every move keeps the counts of all segments exact but those that were incremented while a delete was about to remove them, and the content index sound |
| Concurrency.RunShape | crates/capsule-registry/src/pipeline.rs:481-776 | so does every interleaving, whatever calls begin |
| Concurrency.LiveIff | crates/capsule-registry/src/pipeline.rs:489-500 | a capsule without such a segment is alive at every moment; one with such a segment is not, once no delete is between a decrement to zero and its removal |
| Concurrency.CapsulesLiveIff | crates/capsule-registry/src/pipeline.rs:489-640 | over every interleaving: where no delete is at work every segment of a capsule is there if and only if none of them was incremented between a delete's decrement to zero and its removal of that segment |
| Concurrency.DeleteFindsCount | crates/capsule-registry/src/pipeline.rs:489-491 | until then no delete meets a missing segment or a zero count |
| Isolation.GoSane | crates/capsule-registry/src/pipeline.rs:481-776 | until then every move keeps the whole invariant of the store, and every write's segments hold its chunks, shared ones included |
| Isolation.RunSane | crates/capsule-registry/src/pipeline.rs:481-776 | so does every such interleaving |
| Isolation.CreateReads | crates/capsule-registry/src/pipeline.rs:778-790 | a write that makes its capsule in the middle of others reads what it has stored |
| Isolation.RunKeepsReads | crates/capsule-registry/src/pipeline.rs:1447-1567 | a capsule that is there all along reads the same at every point of such an interleaving |
| Alone.AloneIsProgram | crates/capsule-registry/src/pipeline.rs:481-793 | the interleaving machine is the code of the two programs: while only one call moves it takes exactly its program's steps, is over after them, and ends as the program does |
| Recovery.ReconcileConverges | crates/capsule-registry/src/pipeline.rs:443-470 | from any counts over a consistent store in which no segment has 2^32 references: exact counts, precisely the unreferenced segments and their entries gone; in any case a second run is idle |
| Recovery.ReconcileExactIff | crates/capsule-registry/src/pipeline.rs:443-458 | the recount, in 32 bits, comes out exact and reclaims nothing referenced exactly if no segment has 2^32 references or more |
| Recovery.ReconcileKeepsReads | crates/capsule-registry/src/pipeline.rs:443-470 | reconciling changes no capsule's bytes |
| Recovery.ReconcileFlagsIff | crates/capsule-registry/src/pipeline.rs:443-470 | the flags are right afterwards exactly when they were right wherever the count was |
| Recovery.CrashRecovers | crates/nvram-sim/src/lib.rs:23-53 | open and reconcile after a crash between any two steps give a clean store showing the persisted capsules |
| Recovery.CrashCleans | crates/nvram-sim/src/lib.rs:23-53 | the same for the counts alone, whatever the capsules read |
| Recovery.RecoveryRestarts | crates/capsule-registry/src/pipeline.rs:443-470 | a crash inside the recovery itself, at any point of the recount or of the sweep, and opening both files again, does not change where it ends |
| Recovery.SweepIdle | crates/capsule-registry/src/gc.rs:22-34 | the collector finds nothing between operations |
| Collectors.CollectorsAgreeIff | crates/pipeline/src/lib.rs:550-589 | on the same store, whatever its counts, what `garbage_collect` leaves and what the start-up pass leaves are the same segments, bytes and content entries exactly when every referenced segment still has a count and its recount does not wrap to zero |
| AsyncWrite.FullArrivalReaches | crates/capsule-registry/src/pipeline.rs:936-1031 | if every task delivers, any order of delivery commits every chunk |
| AsyncWrite.CommitLoopOk | crates/capsule-registry/src/pipeline.rs:1336-1444 | the ordered commit loop keeps the staged segments, the staged dedup map, the deferred registrations and the increments consistent with each other |
| AsyncCommit.UndoOk | crates/capsule-registry/src/pipeline.rs:1060-1070 | undoing the increments always succeeds and gives back exactly what they took |
| AsyncCommit.CommitLeads | crates/capsule-registry/src/pipeline.rs:1072-1077 | the commit's steps are allowed and publish the staged segments with their counts |
| AsyncCorrect.RollbackExact | crates/capsule-registry/src/pipeline.rs:1060-1070 | a failed preparation or segment commit restores segment map, counts, content store, capsules and allocator |
| AsyncCorrect.TornCommitExact | crates/capsule-registry/src/pipeline.rs:1072-1077 | so does a log commit that fails at any byte |
| AsyncCorrect.CollisionExact | crates/capsule-registry/src/pipeline.rs:1102-1120 | with dedupe on, the cleanup after a refused capsule restores the store |
| AsyncCorrect.CollisionLeaks | crates/capsule-registry/src/pipeline.rs:1102-1120 | with dedupe off the same cleanup leaves the new segments behind |
| AsyncMain.AsyncFailureExact | crates/capsule-registry/src/pipeline.rs:849-1126 | every failure of the asynchronous write: counts exact, and the store restored unless the id was refused with dedupe off; and what it reports: the error of the failed task of least index; only if there is none, and chunks are missing, that it exited early; else the device's failure, or the refused id |
| AsyncMain.AsyncSuccess | crates/capsule-registry/src/pipeline.rs:849-1126 | it succeeds exactly if every chunk arrived, the id is free and the log commit worked |
| AsyncMain.AsyncRefinesSync | crates/capsule-registry/src/pipeline.rs:936-1120 | for every arrival order a successful asynchronous write ends in the file bytes, segment records (but access counts), content store, next id and segment list of the sequential write |
| Runs.EventOk | crates/capsule-registry/src/pipeline.rs:443-1126 | one write, delete, collection, or operation stopped at any step and recovered, keeps exact counts and shows the abstract store |
| Runs.InterruptedShows | crates/capsule-registry/src/pipeline.rs:481-793 | an operation stopped after any step leaves the capsules as before, or as after it if it took its deciding step |
| Runs.StoredIff | crates/capsule-registry/src/pipeline.rs:1541-1555 | what a write stores is its data if no chunk is a foreign frame; and only then, for a single chunk or where no chunk is misread at another length |
| Runs.HistoryCorrect | crates/capsule-registry/src/pipeline.rs:443-1126 | over every history, whatever the data, the capsules are exactly the abstract map of what the successful writes store, recorded sizes included |
| Runs.EventKeepsInv | crates/capsule-registry/src/pipeline.rs:443-1126 | the same for the counts alone, whatever the capsules read |
| Histories.HistoryKeepsInv | crates/capsule-registry/src/pipeline.rs:443-1126 | so over every history, however long, with any other tenant's data |
| Histories.UndeletedStays | crates/capsule-registry/src/pipeline.rs:1447-1567 | over every history that does not delete it a capsule's bytes do not change, whatever else is written |
| Histories.RoundTrip | crates/capsule-registry/src/pipeline.rs:1447-1567 | what a written capsule reads is fixed by the write through any later history that does not delete it, segments, policies and key versions shared at will: its data if no chunk is a foreign frame, and only then for a single chunk |
| Histories.HistoryFromEmpty | crates/capsule-registry/src/pipeline.rs:443-1126 | from an empty store the capsules are exactly the abstract map, with no hypothesis on the store or the data |
| Histories.RoundTripFromEmpty | crates/capsule-registry/src/pipeline.rs:1447-1567 | and the round trip holds after any first history |
| Pipeline.WritePipeline.constructor | crates/capsule-registry/src/pipeline.rs:232-330 | a new pipeline has reconciled its store |
| Pipeline.WritePipeline.WriteCapsule | crates/capsule-registry/src/pipeline.rs:534-826 | the method ends in the state, with the result, of the sequential program |
| Pipeline.WritePipeline.CommitPrepared | crates/capsule-registry/src/pipeline.rs:1336-1444 | one commit: staged hit, stored hit, or new segment |
| Pipeline.WritePipeline.CommitInOrder | crates/capsule-registry/src/pipeline.rs:936-1031 | slots filled in arrival order are committed in index order, up to the first gap or error |
| Pipeline.WritePipeline.JoinTasks | crates/capsule-registry/src/pipeline.rs:1033-1050 | the first failed task decides, unless a commit failed before |
| Pipeline.WritePipeline.WriteCapsuleAsync | crates/capsule-registry/src/pipeline.rs:849-1126 | the method ends in the state, with the result, of the asynchronous program |
| Pipeline.WritePipeline.DeleteCapsule | crates/capsule-registry/src/pipeline.rs:481-510 | the method is the delete program |
| Pipeline.WritePipeline.ReadCapsule | crates/capsule-registry/src/pipeline.rs:1447-1567 | concatenates the decrypted, unpacked segments or fails with the first error; an encrypted segment is refused without a key manager |
| Pipeline.KeysNeededIff | crates/capsule-registry/src/pipeline.rs:1470-1476 | a capsule that reads for a reader with the keys reads the same for one without exactly if none of its segments is encrypted |
| Pipeline.WritePipeline.ReadRange | crates/capsule-registry/src/pipeline.rs:1571-1582 | the requested slice of the whole capsule, bounds checked first against the recorded size; if that is larger than the capsule, the slice panics |
| Pipeline.WritePipeline.ReconcileRefcounts | crates/capsule-registry/src/pipeline.rs:443-470 | counts references over all capsules in any order, corrects, sweeps |
| Pipeline.WritePipeline.Sweep | crates/capsule-registry/src/gc.rs:22-34 | visits the segments in any order, reclaims those at zero, and counts them |
| Pipeline.WritePipeline.ReclaimSegment | crates/capsule-registry/src/gc.rs:36-47 | content entry first, then the segment, or the error for a segment that has vanished |
| VolumeRuns.NextKeeps | crates/protocol-block/src/lib.rs:120-263 | every step of every interleaving, and a restart, keeps the protocol's invariant |
| VolumeRuns.Reachable | crates/protocol-block/src/lib.rs:120-263 | so it holds after every run of any number of calls |
| VolumeRuns.NoLostUpdate | crates/protocol-block/src/lib.rs:218-263 | a step either changes no volume's contents or applies its own call's change to what the volumes read at that moment |
| VolumeRuns.RecordsKept | crates/protocol-block/src/lib.rs:148-172 | a committed change affects the table's record of its own volume alone: a create records its size and block size, a write changes neither |
| VolumeRuns.Untouched | crates/protocol-block/src/lib.rs:242-257 | a volume that nobody has changed is there if it was there, with the same contents |
| VolumeRuns.ContentsReplay | crates/protocol-block/src/lib.rs:120-263 | the volumes read as if the committed changes had happened one after the other |
| VolumeRuns.SwapIff | crates/protocol-block/src/lib.rs:242-257 | the swap succeeds if and only if nobody changed the volume since the snapshot; the capsule id alone decides it |
| VolumeRuns.SnapshotCurrent | crates/protocol-block/src/lib.rs:247-257 | an unchanged capsule id means an unchanged version and unchanged contents |
| VolumeRuns.VersionIs | crates/protocol-block/src/lib.rs:255-257 | the version counts the writes, up to saturation |
| VolumeRuns.PatchExact | crates/protocol-block/src/lib.rs:235-237 | a patch changes its range and nothing else |
| VolumeRuns.GoneMeansChanged | crates/protocol-block/src/lib.rs:234 | a call that finds its capsule gone was overtaken by another change |
| VolumeRuns.ReadIsAtomic | crates/protocol-block/src/lib.rs:205-211 | a successful read returns the contents of the moment of its snapshot |
| VolumeRuns.OutcomeIsDurable | crates/protocol-block/src/lib.rs:218-263 | success means the change was made once and is saved, for ever; any error but a failed save means it was not made |
| VolumeRuns.RestartReads | crates/protocol-block/src/lib.rs:80-99 | after a restart the volumes read exactly the saved changes; the saved table never names a deleted capsule |
| VolumeRuns.OneOwner | crates/protocol-block/src/lib.rs:120-263 | a capsule belongs to at most one volume or call |
| VolumeRuns.LeakIff | crates/protocol-block/src/lib.rs:243-245 | a call leaks its capsule exactly when it finds its volume deleted or cannot save the table |
| BlockProtocol.BlockView.CreateVolume | crates/protocol-block/src/lib.rs:120-172 | over the real pipeline, with other calls between any two stretches: the volume is made once and saved, or not at all; each error has its cause, so on a store that can take the zeros a call that loses no race ends in success, or in a failed save; undisturbed, the reply is a function of the arguments, the table and the store |
| BlockProtocol.BlockView.DeleteVolume | crates/protocol-block/src/lib.rs:189-202 | likewise for a delete |
| BlockProtocol.BlockView.Read | crates/protocol-block/src/lib.rs:205-211 | a range of what the volume read at the snapshot, or an error that another change explains |
| BlockProtocol.BlockView.Write | crates/protocol-block/src/lib.rs:218-263 | the patch is applied once and saved, or nothing has changed; each error has its cause: the arguments, another change of the volume since the call began, contents that the pipeline cannot store, or the save; undisturbed, the reply is a function of the arguments, the table and the store |
| BlockProtocol.BlockView.Swap | crates/protocol-block/src/lib.rs:242-259 | the locked stretch takes exactly the protocol's swap step |
| BlockProtocol.BlockView.Persist | crates/protocol-block/src/lib.rs:101-109 | the table is saved before the superseded capsule may go |
| BlockProtocol.Overwrite | crates/protocol-block/src/lib.rs:235-237 | the buffer is patched in place |
| BlockProtocol.WriteBacked | crates/capsule-registry/src/pipeline.rs:534-826 | a pipeline write is one step of the abstract capsule store |
| BlockProtocol.WriteSucceedsIff | crates/capsule-registry/src/pipeline.rs:534-826 | and it succeeds exactly if the id is free and the data can be stored: no codec failure, and a working device for every chunk that is not a duplicate |
| BlockProtocol.DeleteBacked | crates/capsule-registry/src/pipeline.rs:481-510 | so is a pipeline delete |
| Bloom.CountingBloomFilter.Insert | crates/common/src/security/bloom_dedup.rs:116-133 | every counter grows by the key's multiplicity, capped at 255; counters that equal their loads go on doing so exactly if the new loads fit |
| Bloom.CountingBloomFilter.Remove | crates/common/src/security/bloom_dedup.rs:135-156 | every counter falls by the key's multiplicity, not below zero, also for a key that was never inserted |
| Bloom.CountingBloomFilter.WithExisting | crates/common/src/security/bloom_dedup.rs:34-47 | all keys inserted in any order; exact if and only if every load fits |
| Bloom.CountingBloomFilter.MightContain | crates/common/src/security/bloom_dedup.rs:158-169 | no exactly if one of the key's counters is zero; never a wrong no while the counters are exact |
| Bloom.LoadSplit | crates/common/src/security/bloom_dedup.rs:171-178 | a bucket's load is the sum over the keys, repeated indexes and keys included |
| Bloom.IndexIs | crates/common/src/security/bloom_dedup.rs:171-178 | the wrapping arithmetic of an index wraps once |
| Bloom.AddedDebt | crates/common/src/security/bloom_dedup.rs:116-133 | an insertion makes a counter short of its load by exactly the increments lost at 255, and nothing inserted repays them |
| Bloom.SubtractedDebt | crates/common/src/security/bloom_dedup.rs:135-156 | what a removal does to that shortage: of a key that is in, repaid only where the counter runs out; of any other key, deepened |
| Bloom.ForgetsIff | crates/common/src/security/bloom_dedup.rs:135-169 | some removals make the filter deny a key that is still in exactly if some key brings no more to one of its counters than that counter is short of |
| Bloom.HistoryForgetsIff | crates/common/src/security/bloom_dedup.rs:116-169 | at every point of every history of insertions and removals, whatever the keys: what is removed next can make the filter forget exactly if some key brings no more to a counter than it is then short of |
| Bloom.RoomRemembers | crates/common/src/security/bloom_dedup.rs:116-133 | whatever the keys, until an insertion meets a full counter the counters are exact and nothing can be forgotten |
| Bloom.NeverForgetsIff | crates/common/src/security/bloom_dedup.rs:116-169 | for keys that hit no bucket twice: the filter never forgets at any point of a history exactly if no insertion met a full counter |
| Bloom.CrowdedBucketForgets | crates/capsule-registry/src/lib.rs:347-386 | counterexample at the registry: of different keys in one bucket all but the last are deregistered; the last, still stored, is found with up to 255 keys and not found from 256 on |
| Bloom.FilteredRegistry.LookupContent | crates/capsule-registry/src/lib.rs:347-355 | the content store's answer unless the filter denies the key, which it never does to a stored key while its counters are exact |
| Bloom.FilteredRegistry.RegisterContent | crates/capsule-registry/src/lib.rs:358-369 | registration, re-registration included, keeps every stored key in the filter |
| Bloom.FilteredRegistry.DeregisterContent | crates/capsule-registry/src/lib.rs:371-386 | so does deregistration |
| Paths.Normalize | crates/protocol-nfs/src/lib.rs:467-509 | the loop computes the path's components |
| Paths.ParsePrinted | crates/protocol-nfs/src/lib.rs:467-509 | parsing the printed form of names gives the same names |
| Paths.ComponentsSurvive | crates/protocol-nfs/src/lib.rs:467-509 | each component is a part of the path that no parent step took back, with its backslashes turned into slashes |
| Paths.NormalIdempotentIff | crates/protocol-nfs/src/lib.rs:484 | normalising again changes nothing exactly when no surviving part of the path holds a backslash |
| Paths.CanonicalIff | crates/protocol-nfs/src/lib.rs:467-509 | a printed path is canonical exactly if all its pieces between slashes are names |
| Paths.NormalNames | crates/protocol-nfs/src/lib.rs:467-509 | what is parsed has no empty, dot or dot-dot component |
| Paths.NeverAboveRoot | crates/protocol-nfs/src/lib.rs:467-482 | a parent step at the root stays at the root |
| Paths.PrefixIsBelow | crates/protocol-nfs/src/lib.rs:422-457 | the prefix test selects exactly the descendants, and a slash-free remainder exactly the children |
| Namespace.NfsView.EnsureDirectory | crates/protocol-nfs/src/lib.rs:511-541 | for any components: the missing directories are made unless a file is in the way; then nothing has been inserted |
| Namespace.NfsView.Mkdir | crates/protocol-nfs/src/lib.rs:353-360 | for every path: when it succeeds, what it makes, and that the namespace stays a tree exactly if every component that was written with a backslash prints as names below a directory that is there |
| Namespace.NfsView.WriteFile | crates/protocol-nfs/src/lib.rs:245-311 | for every path, and whatever other calls make of the namespace between its check and its insertion: exactly when it succeeds, the capsule it replaces, and that the namespace stays a tree exactly if all pieces are names, the last component, if written with a backslash, lies in a directory that is there, and nothing lies below the path |
| Namespace.NfsView.Delete | crates/protocol-nfs/src/lib.rs:364-409 | for every path: keeps the tree; refuses exactly the directories that have an entry |
| Namespace.NfsView.ListDirectory | crates/protocol-nfs/src/lib.rs:422-457 | for every path: lists exactly the nodes whose parent it is |
| Namespace.AncestorsAreDirectories | crates/protocol-nfs/src/lib.rs:511-541 | every ancestor of a path in the tree is a directory |
| Namespace.FilesHaveNoDescendants | crates/protocol-nfs/src/lib.rs:245-311 | nothing is below a file |
| Namespace.EmptyIff | crates/protocol-nfs/src/lib.rs:383-386 | the emptiness scan is exact |
| Namespace.WithDirsTreeIff | crates/protocol-nfs/src/lib.rs:511-541 | making the missing directories keeps the tree exactly if every component is grounded |
| Namespace.NoBackslashGrounded | crates/protocol-nfs/src/lib.rs:484 | a path of which no surviving part holds a backslash always is |
| Namespace.WriteWithBackslash | crates/protocol-nfs/src/lib.rs:245-311 | counterexample: writing the file `a\b` breaks the tree exactly if /a is no directory |
| Namespace.DirectoryMadeMeanwhile | crates/protocol-nfs/src/lib.rs:261-300 | counterexample: a directory with an entry, made after the check, is replaced by the file, and the entry is left below a file |
| Layout.BuildPlan | crates/layout-engine/src/offload/cpu.rs:27-79 | the plan's segments are, in order, exactly the pieces of at most the segment size that the slices fall into; zone ids count up, closed zones hold at least one segment size and under two |
| Layout.TilesReassemble | crates/pipeline/src/lib.rs:404-418 | reading the plan's ranges in order gives the input back |
| Modular.ModularPipeline.WriteCapsule | crates/pipeline/src/lib.rs:393-494 | succeeds exactly if every chunk can be compressed; counts exact, failed or not; no other capsule changes; each new segment holds one chunk, as the codec's frame exactly where that is tried, shorter and decodes, under that label; each segment of the capsule reads as the input and the store before determine (`Echo`), so the capsule reads back if every chunk does, and only then unless lengths differ |
| Modular.ReadsBackIff | crates/pipeline/src/lib.rs:419-432 | every chunk reads back exactly if each stored segment with its hash has a label that serves it and chunks of the write with the same hash are equal |
| Modular.RawReadsBack | crates/pipeline/src/lib.rs:393-494 | an uncompressed store written without compression always reads back |
| Modular.EchoedIff | crates/pipeline/src/lib.rs:500-523 | chunk by chunk is enough for the whole, and needed when lengths agree |
| Modular.MisreadsCancel | crates/pipeline/src/lib.rs:500-523 | counterexample, on a store that two writes make: two misread chunks of other lengths can make up for each other |
| Modular.ModularPipeline.DeleteCapsule | crates/pipeline/src/lib.rs:525-548 | gives back exactly the capsule's references; no other capsule loses a segment |
| Modular.ModularPipeline.GarbageCollect | crates/pipeline/src/lib.rs:550-589 | on any store at all: exactly the unreferenced and the uncounted segments go, each with one hash of the content index, its only one where it has one |
| Modular.CollectLeaves | crates/pipeline/src/lib.rs:550-589 | on any store: what is left is what capsules name and count, nothing left reads differently, a second run finds nothing |
| Modular.CollectOk | crates/pipeline/src/lib.rs:550-589 | where counts are exact it leaves exactly the referenced segments, and a clean store alone |
| Modular.InMemoryTransaction.Commit | crates/storage/src/lib.rs:69-84 | staged data and records first, deletions last |
| Modular.PackedReads | crates/compression/src/lib.rs:288-309 | compressed output decodes to its input, because that was checked before it was returned |
| Modular.HitReadsIff | crates/pipeline/src/lib.rs:419-432 | a dedup hit reads back exactly if the stored label serves the chunk |
| Modular.RawChunkReadsAsAnother | crates/pipeline/src/lib.rs:419-432 | counterexample: a raw chunk equal to an earlier chunk's compressed form reads back as that chunk |
| Keys.HkdfExpand | crates/encryption/src/keymanager.rs:172-196 | the expand loop yields T(1) followed by T(2) of section 2.3 of RFC 5869 |
| Keys.InfoInjective | crates/encryption/src/keymanager.rs:198-203 | different key versions derive from different inputs |
| Keys.InfoDigits | crates/encryption/src/keymanager.rs:198-203 | behind the context come the four bytes of the version, highest first |
| Keys.KeyManager.constructor | crates/encryption/src/keymanager.rs:239-253 | version 1 is derived, with the salt of a secure element if there is one |
| Keys.KeyManager.GetKey | crates/encryption/src/keymanager.rs:163-292 | cached or not, the answer is the fresh derivation for that version: extracted with the salt as key and the master key as message, expanded to two blocks (sections 2.2 and 2.3 of RFC 5869) |
| Keys.KeyManager.Rotate | crates/encryption/src/keymanager.rs:308-321 | one version more, unless a rotation is going on; older versions keep their keys |
| Keys.KeyManager.ClearCache | crates/encryption/src/keymanager.rs:343-345 | clearing the cache changes no later answer |
| Keys.VerifyMac | crates/encryption/src/mac.rs:122-145 | accepts exactly the tag computed over the same ciphertext and fields |
| Keys.TagAccepted | crates/encryption/src/mac.rs:81-145 | every computed tag is accepted |
| Keys.MacInputInjective | crates/encryption/src/mac.rs:151-175 | between records with the same fields present, the authenticated bytes determine the ciphertext and every field |
| Keys.PatternsCollide | crates/encryption/src/mac.rs:151-175 | for any two sets of present fields some ciphertext and record of the one are authenticated like some of the other |
| Keys.MacInputInjectiveIff | crates/encryption/src/mac.rs:151-175 | so the authenticated bytes tell records apart exactly if the same fields are present in both |
| Audit.TipDetermines | crates/common/src/security/audit_log.rs:175-190 | two logs that end in the same hash, without a collision between their records, have the same events and times in the same order |
| Audit.AuditLog.Append | crates/common/src/security/audit_log.rs:175-259 | a refused append leaves the chain alone; a written record continues it, through rotations whose renaming or reopening fails; when the time-stamping client is asked |
| Audit.AskedExactly | crates/common/src/security/audit_log.rs:197-205 | while everything succeeds the time-stamping client is asked for every batch-th record and for no other |
| Placement.MigrationExact | crates/scaling/src/compiler.rs:248-294 | a hot capsule moves exactly if its latency goal is strict and some node is fit, to a fit node whose used share of bytes is at most that of any fit node, to the hundredth; the action never asks for a transformation |
| Placement.ReplicationExact | crates/scaling/src/compiler.rs:201-244 | every target is fit; the two replicas promised are there exactly if two node entries are fit |
| Placement.TargetsFirst | crates/scaling/src/compiler.rs:359-382 | the targets are the first fit entry of the node list and the first after it |
| Placement.DataStaysLawful | crates/scaling/src/compiler.rs:201-404 | whatever the event and the mesh, no action sends data to a node without room, outside the local zone under zone sovereignty, or outside a metro zone under a latency goal below two milliseconds; under local sovereignty there is no action |
| Placement.ValidationIdle | crates/scaling/src/compiler.rs:406-457 | the check of the finished actions removes nothing |
| Audit.RestartContinuesIff | crates/common/src/security/audit_log.rs:261-290 | a restart continues the chain exactly when the current file has a record or nothing was ever written |
| Audit.RecoverLastHash | crates/common/src/security/audit_log.rs:261-290 | the last parsable record decides |

## Left out

- File and JSON formats, fsync, torn metadata files and the failure of a save: a save is one atomic step.
- AES-XTS, BLAKE3, HMAC, LZ4, Zstd and the entropy estimate: uninterpreted functions.
- The pipeline sees the key manager only as key versions, which are parameters of preparation and may differ from chunk to chunk; `Keys` is not connected to them.
- Keys: zeroing of memory, reading the master key from the environment, and the overflow of the version counter.
- The hybrid Kyber path, metro replication, telemetry, audit events of the pipeline, timing, statistics, creation and modification times, `deduped_bytes`.
- The per-task memory limit and the semaphore of the asynchronous writer, and the feature switch that routes calls to the trait pipeline.
- AsyncMain.AsyncRefinesSync: compares everything but access counts, which the staged reuse does not bump.
- Interleaving.WriteInsideRelease: a write of one duplicate chunk, run whole; `Concurrency` interleaves any writes and deletes call by call.
- Concurrency: asynchronous writes, reads, the collector and crashes are not among the calls that interleave.
- BlockProtocol.BlockView.Write: other calls take turns at the stretch boundaries; a stretch that is a call of the pipeline is taken as one step, by the assumption above; the overflow of `offset + len` is not modelled.
- BlockProtocol.BlockView.CreateVolume: when other calls run in between, that the pipeline could not store the zeros is said without what it held at that moment (some chunk cannot be prepared, or met a failing device); undisturbed, exactly. The same for `Write`.
- VolumeRuns.NoLostUpdate: likewise takes a call of the pipeline as one step.
- VolumeRuns.OutcomeIsDurable: a call that was cut off by the end of the process may or may not have made its change.
- Bloom: sizing is a floating-point formula; any positive number of buckets is allowed. The concurrent use of the counters is not modelled.
- Namespace: times, reading files, and saving the namespace.
- Layout: the other two planners and the Merkle root.
- Modular: encryption and the keyring (the no-op encryptor is modelled), the backend over the log, statistics; counts are unbounded.
- Audit: signing, flushing, the time-stamping protocol; a line is written whole or not at all.
- Placement: rebalancing, evacuation and view projection (they only select or pass on); the 64-bit overflow of `used * 100`.
- Mesh networking, protocol servers, simulators and the command line.
