# Comb, verified

Comb is an ordered event feed built from create-only, content-addressed objects and
one compare-and-swap ref per log. This project models the parts that carry its
guarantees and proves them.

| files | what they model |
|---|---|
| `Backend` | the versioned key-value store with conditional put |
| `Chain` | commit chains with Fenwick skip pointers, and the seek over them |
| `Publish`, `PublishInv`, `PublishSteps`, `PublishProof`, `PublishTheorems`, `PublishWitness` | the publication engine as a step relation, its invariant, and what it promises over whole runs |
| `Hamt`, `HamtProof`, `HamtTheorems` | the stable-key index, a persistent trie over 256-bit paths |
| `Catalog`, `CatalogProof`, `CatalogTheorems` | the chunk catalog, an append-only tree of fan-out 32 |
| `Feed`, `FeedInv`, `FeedSteps`, `FeedTheorems`, `FeedPromises`, `FeedWitness` | the complete feed: stable appends, claims, releases, renewals |
| `Paging`, `PagingTheorems` | reading pages of a feed snapshot |
| `LogV2`, `LogV2Theorems`, `LogV2Index` | the trimmable log: append, group append, compact, trim, read; its stable index over runs |
| `Framing`, `FramingTheorems` | the JSONL framer over a buffered reader |
| `Crockford`, `OperationIds`, `Material` | operation ids, their text form, and the buffers request hashes are taken over |
| `HamtReads`, `CatalogReads`, `FeedReads` | what index, catalog and feed accept on any store, well made or not |
| `Heads` | ref values, leases, identities and snapshots, over any kind of commit digest |
| `Sorting` | the stable sort |
| `Bits`, `Words`, `Wrappers` | five-bit groups, 64-bit counters, option and result |

## How it is modelled

- A digest is an injective constructor over the object it addresses, and a store is
  the set of digests it holds. Stores only grow, so old roots stay readable. JSON,
  hashing and envelopes do not appear.
- The publication engine is a step relation. Each backend call is one atomic step of
  one caller. A caller may fail before a step (a crash or a lost request) or after
  its effect (a lost reply). Lease renewals and commits under stable keys are steps
  of the environment: each succeeds with one conditional put, and only against the
  snapshot it was computed from.
- The argument for exactly-once is the invariant of `PublishInv`: a committed
  identity has its intent row applied at its generation or pending one below it, and
  a caller that may still swap has its rows pending at the base of its snapshot.
  `Ordered` is the part that says why the intent is loaded before the head is read.
- Index and catalog each have a reference tree (`Build`) that is defined from the
  set or sequence of entries alone and knows nothing of insertion. The operations are
  proved to land on it, which gives canonical shape, exact refusals and refinement.
- The feed keeps both trees, the chunks and the ref in one state, and time is any
  integer at each step. Sessions take any epoch from `acquire`; the checks after it
  do not trust it.
- Loops of the source are loops here, proved against a function or predicate on their
  inputs. The manifest of the trimmable log, the memory backend and the buffered
  reader are classes whose methods update fields.

## Where the code and its promise part

- A call with a different request must get an idempotency conflict. The request test
  of the scan, of the cached row and of the pending row accepts the request of the
  header of the commit as well as the identity's own (`publish.rs` lines 744-749,
  1619-1626, 1661-1666). A caller that scans under an identity which rode in another
  leader's batch, and supplies the leader's request, is answered.
  `PublishWitness.LeaderRequestAnswersForCompanion` is a reachable run;
  `PublishTheorems.ScanConflictIff` and `AcceptedRequests` give the exact condition.
- Reachable refs bind and validate (`FeedPromises.NeverFalseIntegrity`), but a session
  reports some refused appends as integrity failures too (`feed.rs` lines 1554-1559).
  `FeedWitness.TakenPathIsReported` is a reachable run, for any two keys of one path;
  `FeedPromises.ReportedIntegrityExactly` gives the exact condition.
- Compaction keeps a log readable, but one by a complete-mode caller on a log without a
  stable index marks it complete (`log.rs` lines 1067-1069), and then every append fails
  as a missing index (lines 729-737) and trim is refused, for good.
  `LogV2Index.FreezeHappens` is a reachable run; `LogV2Index.FrozenExactly` gives the
  exact condition.
- Framing is independent of buffering except for the id of an oversized frame: it is
  looked for in the bytes up to the end of the read that crossed the limit
  (`stdio.rs` lines 239-245). `FramingTheorems.SeenDependsOnReads` is a line read in
  two ways; `BufferingIndependent` gives the exact condition.
- Parsing an operation id ignores the three padding bits of its last character, so
  eight last characters name one id (`OperationIds.TwoTextsOneId`, `SameIdExactly`); the decoder on
  its own reads some characters outside ASCII as letters
  (`OperationIds.DecoderReadsBeyondAscii`), but no such text parses
  (`OperationIds.ParsesExactly`).

## Model

| member | source | states |
|---|---|---|
| Backend.Put | crates/comb-object/src/memory.rs:32-58 | A conditional put lands exactly when the caller expects the live version; it touches one key, stores the body and counts the version up; a key that should be absent and a version that is not live are refused differently. |
| Backend.MemoryBackend.PutCreate | crates/comb-object/src/memory.rs:23-30 | Creation lands at version 1 exactly when the key is absent and changes nothing otherwise. |
| Backend.MemoryBackend.PutUpdate | crates/comb-object/src/memory.rs:32-58 | The stored map becomes the conditional put of the old one, or stays, with the error of each refused case. |
| Backend.MemoryBackend.Get | crates/comb-object/src/memory.rs:60-66 | A read returns the stored body with its version, or nothing. |
| Backend.EqualVersionMeansUntouched | crates/comb-object/src/memory.rs:23-58 | Over any run of operations a key has an unchanged version exactly when its cell is unchanged. |
| Backend.CasSucceedsIffUntouched | crates/comb-object/src/memory.rs:32-58 | A conditional put against a remembered version lands exactly when nothing wrote the key in between. |
| Chain.SkipDistanceIsLowestBit | crates/comb-core/src/commit.rs:155-161 | The skip distance of an odd multiple of a power of two is that power: the lowest set bit. |
| Chain.SkipTarget | crates/comb-core/src/commit.rs:163-165 | The skip target of a positive generation lies below it. |
| Chain.HopsUnderCap | crates/combctl/src/publish.rs:1248-1256 | From any 64-bit generation to any target below it the greedy skip walk takes at most 2080 hops, so the cap of 10,000 never fires. |
| Chain.DenseExtends | crates/combctl/src/publish.rs:1211-1231 | A commit that names the head as parent and the computed skip extends a dense chain by one. |
| Chain.SeekGeneration | crates/combctl/src/publish.rs:1233-1311 | On a dense chain the seek loop returns the commit that walking parents would, in exactly the greedy number of hops, never past 2080, and rejects a target above its start. |
| Chain.ComputeSkip | crates/combctl/src/publish.rs:1211-1231 | The skip of a new generation is the commit at that generation minus its lowest set bit, or none at zero. |
| Publish.FindRecorded | crates/combctl/src/publish.rs:1636-1686 | The scan from the head finds a commit that records the identity, and none only if no commit does. |
| PublishProof.InvNext | crates/combctl/src/publish.rs:321-624 | Every step of every caller and of the environment keeps the invariant: an identity committed at g has its row applied at g or pending at g-1, and a caller that may still swap has its rows at its snapshot base. |
| PublishProof.InvAlways | crates/combctl/src/publish.rs:321-624 | The invariant holds in every state of every run. |
| PublishProof.LiveCallersAgree | crates/combctl/src/publish.rs:772-998 | A row moved under its loaded version never disagrees with another caller whose snapshot is still live: the intent is loaded before the head is read. |
| PublishProof.SwapRows | crates/combctl/src/publish.rs:876-998 | When a swap lands, each identity it records has its row pending exactly at the snapshot generation, for the request it records. |
| PublishTheorems.ExactlyOnce | crates/combctl/src/publish.rs:321-449 | In every interleaving of callers, crashes, lost requests, lost replies and renewals, a generic identity is recorded by at most one commit across all refs, as header identity or admission. |
| PublishTheorems.HistoryGrows | crates/combctl/src/publish.rs:772-998 | Over a run each ref history is only ever extended. |
| PublishTheorems.RetryTransparency | crates/combctl/src/publish.rs:1593-1686 | Any two calls under one identity that return a publication, whenever and by whatever path, name one ref and return the same outcome, generation, epoch, commit and ref value. |
| PublishTheorems.RetryAnswers | crates/combctl/src/publish.rs:690-770 | Once committed, a call with its request is answered with the original publication, whose outcome is what the commit owes the identity, by the applied row, by the one generation a pending row points at, and by the scan. |
| PublishTheorems.DoneOutcome | crates/combctl/src/publish.rs:1721-1737 | An answer under the header identity carries the commit result; under any identity of a batch, the leader included, it carries the first and last sequence admitted under that identity. |
| PublishTheorems.AppliedResultAnswers | crates/combctl/src/publish.rs:626-648 | The generation, commit and result kept in an applied row are those of every answer given under its identity, before or after. |
| PublishTheorems.DoneIsRecorded | crates/combctl/src/publish.rs:1787-1831 | A returned publication is the commit live history holds at its generation and epoch, and its ref value is the one that commit made, with the commit as its head. |
| PublishTheorems.PublishedFromAnyCommit | crates/combctl/src/publish.rs:1787-1831 | From any commit a publication is read exactly when the commit says something of the identity, by its result or by the first admission of it, and its stored ref value has the name, generation and epoch of its header. |
| PublishTheorems.CachedOnAnyState | crates/combctl/src/publish.rs:1593-1634 | In any state an applied row is only a hint: it is answered exactly from the commit live history holds at its generation, if that is the commit it names, accepts the request and records the identity. |
| PublishTheorems.AdmittedIsBound | crates/combctl/src/publish.rs:453-624 | Only a call that was to leave a pending intent ends admitted, and then its row is bound to its ref and request: what a batch asks of its companions. |
| PublishTheorems.MismatchIsInert | crates/combctl/src/publish.rs:1553-1577 | Once its identity is bound to another request or ref, no step of a caller changes anything shared. |
| PublishTheorems.ConflictIsReal | crates/combctl/src/publish.rs:1553-1577 | A conflict is reported only for an identity bound elsewhere. |
| PublishTheorems.AcceptedRequests | crates/combctl/src/publish.rs:1661-1666 | The request test of the scan accepts the recorded request and, for an identity that rode in a batch of another leader, also the leader request, and nothing else. |
| PublishTheorems.ScanConflictIff | crates/combctl/src/publish.rs:1636-1686 | A scan under an identity bound to another request reports the conflict exactly when the supplied request is not that of the batch leader it rode with. |
| PublishTheorems.MismatchAnsweredOnlyForLeaderRequest | crates/combctl/src/publish.rs:1593-1634 | A caller bound elsewhere ends in the conflict or failed, is never admitted, and is answered only if it supplied the request of the batch leader. |
| PublishWitness.LeaderRequestAnswersForCompanion | crates/combctl/src/publish.rs:1636-1686 | A reachable run in which a caller with a different request is answered instead of refused. |
| PublishTheorems.ResolveNeverFails | crates/combctl/src/publish.rs:690-770 | Resolving a loaded pending row never reports a failed recovery nor a conflict: looking at generation base+1 alone is enough. |
| PublishTheorems.AppliedAlwaysAnswers | crates/combctl/src/publish.rs:337-390 | An applied row is always confirmed by live history, so the rescan after it is never reached. |
| PublishTheorems.CompanionsNeverMissing | crates/combctl/src/publish.rs:1000-1035 | A batch never finds the row of a companion missing before its swap. |
| PublishTheorems.ReachableChainsAreDense | crates/combctl/src/publish.rs:1211-1231 | Every reachable chain is dense with exact skips and as long as its generation. |
| PublishTheorems.SeekReachable | crates/combctl/src/publish.rs:1233-1311 | In every reachable state the seek finds the commit the engine reads at a generation, in at most 2080 hops. |
| PublishTheorems.ResolveBySeek | crates/combctl/src/publish.rs:690-770 | Resolving a pending row by the seek gives, in every reachable state, what the steps of the engine take from the history. |
| PublishTheorems.CachedBySeek | crates/combctl/src/publish.rs:1593-1634 | Confirming an applied row by the seek gives, in every reachable state, what the steps of the engine take from the history. |
| Bits.GroupsDetermine | crates/combctl/src/hamt.rs:340-354 | The five-bit groups that overlap a byte string, padded, determine it. |
| HamtProof.NibblesDeterminePath | crates/combctl/src/hamt.rs:340-354 | The 52 padded nibbles determine all 256 bits of a path. |
| Hamt.ValidateSlots | crates/combctl/src/hamt.rs:356-381 | The one-pass slot check accepts exactly strictly ascending slots below 32, at most 32 of them. |
| Hamt.UpsertChild | crates/combctl/src/hamt.rs:331-338 | Overwriting in place, or pushing and sorting, gives the children in slot order with the slot set. |
| Hamt.Lookup | crates/combctl/src/hamt.rs:111-177 | The lookup loop computes the recursive walk, on any store. |
| HamtProof.LoadBuild | crates/combctl/src/hamt.rs:410-509 | No check on a node read fires on the reference tree of valid entries. |
| HamtProof.SplitBuilds | crates/combctl/src/hamt.rs:283-314 | Splitting a leaf builds the reference tree of two entries, or finds that they share the whole path. |
| HamtTheorems.InsertAtBuilds | crates/combctl/src/hamt.rs:208-281 | Inserting below any prefix gives the reference tree of the larger set, stored, or the exact refusal. |
| HamtTheorems.InsertRefines | crates/combctl/src/hamt.rs:179-206 | Insertion adds exactly one binding with entries equal to the set size; it refuses a stored key as already present, and a fresh key as a path collision exactly when a stored key has the same 256-bit path. |
| HamtTheorems.EmptyRepresents | crates/combctl/src/hamt.rs:106-109 | The empty root stands for no entries. |
| HamtTheorems.OldRootsStay | crates/combctl/src/hamt.rs:179-206 | Whatever is inserted later, an older root still stands for its own entries. |
| HamtTheorems.LookupExact | crates/combctl/src/hamt.rs:111-177 | A lookup answers with an entry exactly when it is stored under that key and never reports an integrity failure. |
| HamtReads.LookupOnAnyStore | crates/combctl/src/hamt.rs:111-177 | On any store, well made or not, a lookup answers exactly when count, head and root node agree and every node on the way down the path of the key stands at its depth, under its prefix, with valid slots or ranges; the end of that way is the answer, and anything else is an integrity failure. |
| HamtTheorems.Canonical | crates/combctl/src/hamt.rs:208-338 | The same distinct entries in any order end in the same root digest. |
| HamtTheorems.BranchIffShared | crates/combctl/src/hamt.rs:544-563 | A node below the root is a branch exactly where two or more keys share that prefix. |
| Catalog.ValidateLeafRefs | crates/combctl/src/catalog.rs:112-130 | The one-pass leaf check accepts exactly 1 to 32 valid, contiguous refs, at the end of the 64-bit range too. |
| Catalog.ValidateChildren | crates/combctl/src/catalog.rs:132-161 | The one-pass branch check accepts exactly 1 to 32 possible, contiguous children at a legal height. |
| Catalog.SeekLeaf | crates/combctl/src/catalog.rs:520-568 | The seek loop computes the recursive descent, on any store. |
| CatalogProof.GroupsAppend | crates/combctl/src/catalog.rs:382-406 | Appending to a sequence packed from the left rewrites its last group or starts one. |
| CatalogProof.BuildValid | crates/combctl/src/catalog.rs:204-237 | Every node of a reference tree passes validation, and the entry its parent holds has its exact first, last and count. |
| CatalogTheorems.AppendAtBuilds | crates/combctl/src/catalog.rs:367-518 | Appending below a node gives the reference tree of one more chunk, a full left node and a right sibling, or at height 8 the refusal. |
| CatalogTheorems.AppendRefines | crates/combctl/src/catalog.rs:239-324 | Append adds the chunk at the end at the least height that holds it; a malformed or non-contiguous chunk is refused and nothing changes; a contiguous one is refused exactly when 32^9 chunks are stored. |
| CatalogTheorems.Capacity | crates/combctl/src/catalog.rs:472-514 | The capacity in chunks, 32^9, as a number. |
| CatalogTheorems.Canonical | crates/combctl/src/catalog.rs:338-365 | One sequence of chunks has one height and one root. |
| CatalogTheorems.OffSpineIsFull | crates/combctl/src/catalog.rs:382-406 | Every node off the right spine holds 32 refs or 32 full children. |
| CatalogTheorems.OldRootsStay | crates/combctl/src/catalog.rs:239-324 | Whatever is appended later, an older root still stands for its chunks. |
| CatalogTheorems.SeekExact | crates/combctl/src/catalog.rs:520-568 | A seek in range returns the leaf covering the sequence, a run of at most 32 appended chunks; neither the depth guard nor any check fires; out of range it finds nothing. |
| CatalogReads.SeekOnAnyStore | crates/combctl/src/catalog.rs:520-568 | On any store a seek finds nothing exactly outside the range of the root, finds a leaf exactly when a way of well-made nodes that cover the sequence leads to it, and anything else is an integrity failure. |
| CatalogReads.AppendStoresGood | crates/combctl/src/catalog.rs:239-518 | On any store every node an append writes is well made. |
| CatalogReads.AppendFollowsSpine | crates/combctl/src/catalog.rs:239-518 | On any store an append succeeds only with a well-made next chunk, under a right spine of well-made nodes whose heights count down from that of the root. |
| FeedInv.PublicationIsLatest | crates/combctl/src/feed.rs:592-633 | On any value the ref ever held, binding and validation succeed with exactly the manifest of the latest append. |
| FeedInv.LookupReadsLog | crates/combctl/src/feed.rs:1315-1361 | A lookup gives the receipt of the logged entry for the same bytes, a conflict naming the logged hash for others, and nothing for a key not in the log. |
| FeedSteps.PrepareExact | crates/combctl/src/feed.rs:1600-1791 | Preparing under a key the log does not hold fails only for the lease, an oversized payload, a full catalog or a taken path, and otherwise extends the chain by one append. |
| FeedSteps.PlainKeeps | crates/combctl/src/store.rs:615-652 | A claim or release keeps log and target and links to the chain; a claim raises the epoch by one. |
| FeedSteps.RenewKeeps | crates/combctl/src/publish.rs:1446-1505 | A renewal of the held lease keeps everything the value says. |
| FeedTheorems.InvNext | crates/combctl/src/feed.rs:1363-1473 | Every step of every session and of the environment keeps the feed invariant. |
| FeedTheorems.InvAlways | crates/combctl/src/feed.rs:1363-1473 | The feed invariant holds in every state of every run. |
| FeedPromises.FeedAgreement | crates/combctl/src/feed.rs:1600-1791 | In every reachable state head sequence, last sequence and chunk count of the catalog and entries of the index are equal; the index maps a key to an entry exactly when it was appended; the catalog leads from a sequence to the stored chunk of that frame. |
| FeedPromises.KeyOnce | crates/combctl/src/feed.rs:1363-1473 | A stable key is committed at one sequence only. |
| FeedPromises.RunsAdvance | crates/combctl/src/publish.rs:1063-1209 | Over a run the chain is only extended and an answered call keeps its answer. |
| FeedPromises.ReceiptsAgree | crates/combctl/src/feed.rs:1363-1473 | All successful appends under one key, across sessions and lost replies, were given the same bytes and return one receipt. |
| FeedPromises.CommittedKeyAnswers | crates/combctl/src/feed.rs:1315-1361 | Once a key is committed a call that looks it up gets that receipt for the same bytes and a conflict otherwise, before it can touch the ref. |
| FeedPromises.AppendIsFenced | crates/combctl/src/feed.rs:1600-1613 | Each append carries the writer of the one claim that created its epoch, and follows no commit of a larger epoch. |
| FeedPromises.Fencing | crates/combctl/src/publish.rs:92-117 | The same over every reachable chain, with renewals and releases interleaved freely. |
| FeedPromises.SwapIsOwn | crates/combctl/src/feed.rs:1600-1791 | A session step that changes the ref adds one append for its own key and bytes; the ref then holds its own lease, at its own epoch, which has not run out. |
| FeedPromises.SwapExactly | crates/combctl/src/publish.rs:92-117 | A session that reaches its swap without its own running lease at its epoch ends failed with the ref unchanged; in time, it lands exactly on the head it read. |
| FeedPromises.ClaimTakes | crates/combctl/src/store.rs:615-648 | A claim lands only on a lease that is free, run out, its own or stolen; it holds the ref for its ttl one epoch up, adds its commit, and leaves target and log alone. |
| FeedPromises.ReleaseGivesUp | crates/combctl/src/store.rs:675-714 | A release lands only at its fence and, if it names an owner, on that owner lease; it gives up the lease, keeps the epoch, adds its commit, and leaves target and log alone. |
| FeedPromises.RenewLengthens | crates/combctl/src/publish.rs:1446-1505 | A renewal lengthens only a lease of its writer and epoch that runs at both clock readings, and changes nothing else in the ref. |
| FeedPromises.CountersFit | crates/combctl/src/publish.rs:1069-1074 | Generation and epoch of the ref never leave 64 bits: a commit without a next one is refused. |
| FeedPromises.NeverFalseIntegrity | crates/combctl/src/feed.rs:350-439 | Every reachable ref state binds and validates, with the manifest of the latest append even when the head commit is a claim or release. |
| FeedReads.PublicationOnAnyState | crates/combctl/src/feed.rs:350-633 | In any state of the stores a ref value has a manifest exactly when head commit and target bind to it and the manifest is well made, none exactly when it never published or binds to no target, and anything else is an integrity failure. |
| FeedReads.LookupOnAnyState | crates/combctl/src/feed.rs:1315-1361 | In any state of the stores a receipt or a conflict comes from a stored entry of the key that was asked, with the same bytes or with other ones. |
| FeedPromises.PrepareNeverFalse | crates/combctl/src/feed.rs:1600-1791 | A session that prepares on whatever snapshot it still holds never meets an integrity failure. |
| FeedPromises.ReportedIntegrityExactly | crates/combctl/src/feed.rs:1534-1560 | A refused append is reported to the caller of a session as an integrity failure exactly when the lease is live and there is no next generation, or the catalog is full, or a logged key has the path. |
| FeedWitness.TakenPathIsReported | crates/combctl/src/feed.rs:1534-1560 | For any two keys of one path, a reachable run in which the second is refused and reported as an integrity failure while the ref its session read binds and validates. |
| Paging.LoadChunk | crates/combctl/src/feed.rs:957-1030 | A chunk loads exactly when it holds the frames, count, range and bytes its ref announces. |
| Paging.TakeFrames | crates/combctl/src/feed.rs:879-933 | The frame loop takes the longest run of the chunk that fits and says why it stopped. |
| Paging.ReadPageOnce | crates/combctl/src/feed.rs:781-955 | Out-of-range cursors, a trimmed cursor (an integrity failure at the last 64-bit floor) and the head are answered as such; inside the log the page is the longest run from the cursor within both limits, or the event that is too large. |
| PagingTheorems.PageIsUnique | crates/combctl/src/feed.rs:781-955 | Each cursor and pair of limits owes exactly one page. |
| PagingTheorems.PageAdvances | crates/combctl/src/feed.rs:887-918 | A page is refused exactly for a first event above the byte limit; otherwise it is not empty, moves the cursor by its length, and says truly whether it reached the head. |
| PagingTheorems.FollowReadsSuffix | crates/combctl/src/feed.rs:781-955 | With limits that admit every event, following next cursors returns exactly the rest of the log in at most as many pages as events. |
| PagingTheorems.FeedCanBePaged | crates/combctl/src/feed.rs:781-955 | The snapshot of every reachable feed state stands for the appended payloads in order, so its pages are theirs. |
| LogV2.NextWriter | crates/combctl/src/log.rs:543-578 | A write is refused for the lease exactly while another writer holds a live one and it does not steal; the epoch stays exactly when the writer already holds a live lease and does not steal, and else rises by one. |
| LogV2.CheckPayloads | crates/combctl/src/log.rs:512-534 | The payload check accepts exactly 1 to 2048 payloads of at most 512 KiB together. |
| LogV2.AdmitGenerics | crates/combctl/src/log.rs:744-768 | The loop over a group hands out consecutive ranges, one admission each, the first to the leader and the rest to companions. |
| LogV2.AdmitStables | crates/combctl/src/log.rs:781-812 | The loop over stable items hands out one sequence and one index entry each, and leaves the index, or the first refusal, of adding them one by one. |
| LogV2.AddStablesExact | crates/combctl/src/log.rs:781-812 | On an index of S the items are added exactly when they are within the limits and under fresh, distinct paths, and what is left is an index of S and their entries; a refusal is a recovery failure exactly when the first item refused has a stored or repeated key. |
| LogV2.PrepareEvents | crates/combctl/src/log.rs:678-883 | A prepared append adds one chunk with all payloads in order, moves the head by their number and keeps the index; it succeeds exactly within the stated caps, with the items addable, and never on a complete log without an index. |
| LogV2.MayPrepareExactly | crates/combctl/src/log.rs:678-883 | On an index of S an append is prepared exactly within the caps and under fresh, distinct paths, and leaves an index of S and its entries. |
| LogV2.RefusedExactly | crates/combctl/src/log.rs:678-883 | Why an append to an index of S is refused: for a missing index first, then as a recovery failure exactly when the first stable item refused has a stored or repeated key, and as rejected otherwise. |
| LogV2.FirstAtIsFirst | crates/combctl/src/log.rs:1341-1386 | The first valid submission of an identity is valid and no earlier one is. |
| LogV2.GatherBatch | crates/combctl/src/log.rs:1341-1386 | The first valid submission of an identity becomes its item and is queued; a later valid one is queued if its payloads are the same and conflicts if not; invalid ones are refused; items stand in order of those first submissions. |
| LogV2.LogManifest.Compact | crates/combctl/src/log.rs:1027-1099 | Compaction moves the sorted frames of the chunks to one more segment and clears the chunks, or refuses and changes nothing. |
| LogV2.LogManifest.Trim | crates/combctl/src/log.rs:1122-1159 | Trim raises the floor to its bound, or to the head when the bound is past it; it never lowers the floor, a raised floor is not above the bound, and a complete feed refuses. |
| LogV2Theorems.TrimReads | crates/combctl/src/log.rs:1122-1159 | A trim changes no read from above both its bound and the old floor, and refuses reads from at or below its bound with the first sequence kept. |
| LogV2.LogManifest.Read | crates/combctl/src/log.rs:359-384 | A read at or below the floor names where to resume; otherwise it is the sorted, filtered frames of the chunks not below the cursor, or the backend error if one of those chunks is missing. |
| LogV2.SortSorts | crates/combctl/src/log.rs:1045-1048 | The sort keeps every frame and orders positions. |
| LogV2Theorems.CompactHolds | crates/combctl/src/log.rs:1027-1099 | Compaction leaves the log as it was and finds its frames already in order. |
| LogV2Theorems.CompactKeepsReads | crates/combctl/src/log.rs:1027-1099 | Compaction changes no read. |
| LogV2Theorems.ReadIsSuffix | crates/combctl/src/log.rs:359-384 | A read above the floor gives exactly the cursor to the head. |
| LogV2Theorems.GroupTiles | crates/combctl/src/log.rs:744-768 | The admissions of a group tile the new range, in order, without gap or overlap. |
| LogV2Theorems.GroupFrames | crates/combctl/src/log.rs:580-616 | The frames an admission names are the payloads of its item, in order. |
| LogV2Theorems.StepHolds | crates/combctl/src/log.rs:678-1159 | Each operation keeps the log or extends it, and the floor neither falls nor passes the head. |
| LogV2Theorems.RunHolds | crates/combctl/src/log.rs:678-1159 | In every reachable state segments followed by chunks hold 1 to head once each in order. |
| LogV2Theorems.RunGrows | crates/combctl/src/log.rs:678-1159 | Over a run the log is only extended and the floor never falls. |
| LogV2Theorems.ReadsAgree | crates/combctl/src/log.rs:359-384 | Whatever maintenance ran in between, a later read above the floor returns what the earlier one did and then more. |
| LogV2Index.RunAgrees | crates/combctl/src/log.rs:678-1159 | In every reachable state the stable index stands for exactly the entries the run admitted, and each points at its frame in the log. |
| LogV2Index.AppendExactly | crates/combctl/src/log.rs:678-883 | In every reachable state an append is prepared exactly within the caps and under paths no stable append of the run took. |
| LogV2Index.FrozenRefuses | crates/combctl/src/log.rs:729-737 | A log marked complete without an index takes no append and no trim. |
| LogV2Index.FrozenExactly | crates/combctl/src/log.rs:1067-1069 | A log gets there exactly when a complete-mode caller compacts it while it has no index. |
| LogV2Index.FrozenForGood | crates/combctl/src/log.rs:1027-1159 | Such a log keeps its manifest for good. |
| LogV2Index.FreezeHappens | crates/combctl/src/log.rs:1027-1099 | A reachable run with events that ends there. |
| Framing.ReadFrame | crates/combctl/src/bridge/stdio.rs:202-248 | The kind of a frame and what is left are those of the newline split; an oversized frame keeps its piece up to the end of the read that crossed the limit. |
| Framing.DrainUntilNewline | crates/combctl/src/bridge/stdio.rs:252-266 | Draining leaves exactly the bytes after the newline. |
| FramingTheorems.ReadAll | crates/combctl/src/bridge/stdio.rs:202-248 | Reading frames until the end gives the kinds of the stream, whatever the reads were. |
| FramingTheorems.KindsAreThePieces | crates/combctl/src/bridge/stdio.rs:202-248 | The frames are the pieces of the newline split, then the end: a piece past the limit is oversized, any other is a line, less its last byte 13 if it ends in one. |
| FramingTheorems.PiecesKeepEveryByte | crates/combctl/src/bridge/stdio.rs:250-266 | No piece holds a newline, and ending each with one gives back the stream: no byte of a following line is lost. |
| FramingTheorems.BufferingIndependent | crates/combctl/src/bridge/stdio.rs:202-266 | Two readers of one stream agree on kinds and rest; two oversized frames look for their id in the same bytes exactly when their reads cross the limit at the same byte or both past the end of the line. |
| FramingTheorems.SeenDependsOnReads | crates/combctl/src/bridge/stdio.rs:239-245 | One oversized line, read at once or byte by byte, has its id looked for in different bytes. |
| Crockford.Encode | crates/comb-core/src/operation.rs:431-450 | The loop with its 32-bit accumulator gives the five-bit groups of the bytes, the last padded. |
| Crockford.Decode | crates/comb-core/src/operation.rs:452-465 | The loop gives the whole bytes of the five-bit values, or refuses an unreadable character. |
| Crockford.RoundTrip | crates/comb-core/src/operation.rs:431-465 | Decoding the encoding of any byte string of any length gives it back. |
| OperationIds.TimestampSurvives | crates/comb-core/src/operation.rs:89-100 | The 48-bit timestamp and the entropy of an id survive its layout. |
| OperationIds.ParseOfDisplay | crates/comb-core/src/operation.rs:102-114 | Parsing the text of any id gives the id back. |
| OperationIds.ParsesExactly | crates/comb-core/src/operation.rs:102-114 | A text parses exactly when it is the prefix and 39 readable ASCII characters. |
| OperationIds.DecoderReadsBeyondAscii | crates/comb-core/src/operation.rs:467-479 | The decoder alone reads a character outside ASCII as a letter. |
| OperationIds.ReadsExactly | crates/comb-core/src/operation.rs:467-479 | What an ASCII character reads as, by its code: digits and letters of the alphabet in either case, I and L as 1, O as 0, nothing else. |
| OperationIds.ParseIgnoresCase | crates/comb-core/src/operation.rs:467-479 | Changing the case of any letters after the prefix of any text does not change how it parses. |
| OperationIds.AnyCaseParses | crates/comb-core/src/operation.rs:467-479 | The text of an id in any mixture of cases parses to that id. |
| OperationIds.ParseErrors | crates/comb-core/src/operation.rs:102-116 | How a text fails: prefix, byte count, an unreadable character; a readable body of the right byte count decodes short exactly when it is not ASCII. |
| OperationIds.SameIdExactly | crates/comb-core/src/operation.rs:102-114 | Two texts name one id exactly when all characters but the last read the same and the last agree in their top two bits. |
| OperationIds.TwoTextsOneId | crates/comb-core/src/operation.rs:102-114 | Two different texts that parse to one id. |
| OperationIds.ShownAsParsed | crates/comb-core/src/operation.rs:102-114 | A text is the one its id is shown as exactly when its characters are those of the alphabet and its padding bits are zero. |
| Material.FillMaterial | crates/comb-core/src/operation.rs:385-407 | The hashing loops fill the buffer with each field behind its length, preconditions sorted by name. |
| Material.LeqExactly | crates/comb-core/src/operation.rs:391-393 | The order of names: one starts with the other, or the first byte in which they differ is the smaller. |
| Material.BigEndianSpells | crates/comb-core/src/operation.rs:418-420 | The eight bytes of a length spell it, most significant first. |
| Material.SortIsStable | crates/comb-core/src/operation.rs:391-392 | The sort orders names and keeps the entries of each name in order. |
| Material.MaterialDetermines | crates/comb-core/src/operation.rs:385-407 | Two request buffers are equal exactly when tenant, kind, resource and payload list agree and each precondition name has the same values in the same order. |
| Material.DomainBufferDetermines | crates/comb-core/src/operation.rs:410-425 | Two domain-separated buffers are equal exactly when domain and all fields agree. |

## Left out

- Publish liveness: a fresh identity scans at most 10,000 commits and then fails closed, and retries stop at 128; both appear as a caller that fails at any step. Only the seek has a bound.
- Admission windows of operation ids, intent expiry and clock skew: a caller may fail at any step, so they only remove behaviour.
- Deletes of refs and intents: no modelled path performs them, and a delete would reset the version counter.
- Publish.CommitsStable: the stable-key commit is one atomic step in the publication model; `Feed` has its separate reads, prepare and swap, without skip pointers in its headers.
- Feed claims and releases: they appear as the step in which their swap lands; that they land at most once per operation is the publication engine's theorem. The feed's renewal is the owner's; the plain renewal of a ref, which does not ask for a running lease, appears only in the publication model.
- SetTargetPlan: any plan with a mutation result is covered by `Publish.Prepared`, but its own result is not modelled.
- Session states, watch channels, renewal tasks, deadlines, cancellation and follow waits: the feed keeps the loss of a session as a caller that may fail, and relies on the ref epoch.
- Publish.Prepared: a plan is any commit the engine's checks let through, so domain content of v2 plans is proved in `LogV2` and not again under interleaving.
- LogV2Theorems.Next: an operation appears as the step in which its swap lands; interleaving is the publication engine's matter.
- Paging.LoadChunk: the plaintext length of a chunk and the truncation of its frame count to 32 bits are not modelled; encoded size caps keep counts far below.
- Paging.TakeFrames: the reader's check that a chunk did not end early is an assertion here, because a loaded chunk always reaches its last sequence.
- Commit times of frames, byte caps on encoded nodes, manifests and admissions: they only refuse more.
- A key carries its path instead of computing it from a keyed hash, so two keys of one name and different paths count as different keys.
- S3 and local backends, cache files, CLI, configuration, namespaces of older layouts, tenant isolation, fault injection and the conformance suite.
