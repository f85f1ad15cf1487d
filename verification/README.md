# Verification of the indexer peer

The indexer peer keeps one derived index per vault in step with the backend. It
follows a feed of changes, groups what it learns, reads the current documents,
writes them to SQLite files spread over several threads, rebuilds indexes in
place or beside the old one, and answers calls and searches through a result
cache. This project is a Dafny model of that peer and of the algorithms around
it, with proofs of what it promises.

    dafny verify dfyconfig.toml

## What is modelled

**The peer as a state machine.** `VaultMachine` is one vault: what its file
holds, what only memory holds (pending changes, positions, a live unit, a build
and its replay set). Reading from the backend, writing to the index, settling
what a unit has done, recording its position, settling the position of a build
and ending it are separate steps: the backend may write between any two of them,
units and builds interleave, a unit, the recording of its position or a build
may fail, the feed may hand over a page. The file operations of a swap
(apps/indexer/src/store.ts:1238-1262) are one step. `PeerMachine` puts the
vaults together with the feed cursor, the saved position, a page in flight, a
save under way, a crash of the process and the death of a shard. A step is *in
order* for a vault (`PeerMachine.Orderly`) unless it is a registration that comes
too late, a save that starts over a rewind, a crash or the death of its shard
when a last write its built index lacks would not come back, or the death of its
shard with a page in flight while that index waits for anything at or below the
saved position.

`VaultSafety` proves that each step keeps the invariant; `VaultSteps` says entry
by entry what each step takes off the queue, and which positions it settles;
`Registration` says when a document may join the registry after the tree names
it; `PeerTheorems` draws the results over whole runs, for each vault whatever
befalls the others. `SwapPace` and `SwapTheorems` compare what a swap installs
with what the old index was serving; `SkipSafety` and `SkipTheorems` say what
accounts for a change that a unit skips, superseded or not.
`PeerCounterexamples`, `SwapCounterexample` and `SkipCounterexamples` give the
runs, each from a peer at rest, that show what does not hold. `Store` and `Feed`
are the same queues and positions as objects updated in place by loops, proved
equal to the functions the machine uses.

A *stamp* is the sequence number of a row of the feed; since each write of a
resource moves its one row to the end, the stamp of a resource names its
content. An indexed note carries the stamp of the content it was built from and
the extension that content was read under, so "the index is current for this
document" is an equation.

**Search over several vaults.** `GlobalSearch` is the merge of partial pages
and the cursor it leaves; `SearchPagination` is a whole run of calls over vaults
whose own pages may be long, short or empty; `VaultSearch` is the page one vault
gives for a keyset cursor; `SearchCursor` is the composed cursor.

**The slot, the cache, the keys.** `PrioritySlot` with `SlotTheorems`;
`ResultCache` with `CacheTheorems`; `CacheCoherence` for the cache together with
the generations that travel from the shards; `JsonNumber`, `JsonString`,
`CanonicalJson` and `CanonicalKeys` for the canonical JSON that makes the keys.

**Other algorithms.** Row lots indexed by signature (`LotIndexing`,
`LotTheorems`); the ZIP writer with its table CRC, against a reader written from
sections 4.3.7, 4.3.12 and 4.3.16 of PKWARE's APPNOTE, a strict reader of UTF-8
(section 4 of RFC 3629), the bit-at-a-time CRC of section 8 of RFC 1952 and the
division of polynomials that it is (`Crc32`, `CrcPolynomial`, `ZipArchive`,
`ZipTheorems`, `ZipExport`, `Utf8`); rendezvous routing (`Routing`); the
desktop's reconciliation by signature (`DesktopIndexer`); the semaphore and the
bounded parallel map (`Concurrency`). `Common` and `Text` are shared vocabulary.

## What turned out to be false

Each of these is kept as the code has it, with a lemma that shows a run or an
input, and one that says exactly when the property holds.

- A crash is safe at any moment *but one*: a vault being rebuilt does not hold
  the saved position back, so when a build ends and leaves waiting a change at or
  below that position, a crash before the next save can lose it
  (`PeerCounterexamples.CrashAfterBuild`), and so can the death of the shard
  (`PeerCounterexamples.ShardDiesAfterBuild`). `PeerTheorems.CrashExact` and
  `PeerTheorems.ShardFailsExact` say exactly which states survive, and
  `PeerTheorems.WindowOpens` after which builds a crash loses something.
  `PeerTheorems.SafetyWindow` is about a guard that is enough: no other step
  leaves a built index waiting for anything at or below the saved position, and
  the next save ends that.
- After a shard dies, a save that starts before the rewind is applied can lose a
  change (`PeerCounterexamples.SaveBeforeRewind`): it does not exactly when no
  built index lacks a last write between the position to rewind to and the one
  saved (`PeerTheorems.SaveOverRewindExact`).
- So can a page in flight (`PeerCounterexamples.PageInFlight`): it does not
  exactly when the writes it jumps over are accounted for without their
  announcement (`PeerTheorems.DispatchExact`), which after a loss of memory means
  that no built index lacks a last write between the saved position and the start
  of the page (`PeerTheorems.DispatchAfterLossExact`).
- A tree that names a document not registered yet can make the later change of
  that document be skipped for good (`PeerCounterexamples.UnregisteredDocument`).
  Registering late loses nothing exactly as long as nothing has taken the
  document for gone: every job and build has yet to read it, or the change of the
  tree still waits above everything claimed (`Registration.RegisteringExact`).
  The design registers first (backend/Savoire.API/Api/Hubs/VaultHub.cs:84-87).
- A swap can serve an older version of a note than the index it replaces
  (`SwapCounterexample.SwapGoesBack`): a live unit that applies the tree writes
  the notes it finds added, which are not in its work, and only its work is
  replayed (apps/indexer/src/store.ts:778-781, 839-840). The note installed is at
  least as recent exactly when it is not *behind*: written by the backend after
  the build last read it, then read and written by a live unit, and not read by
  the build since; such a note was written by a unit that failed or did not have
  it in its work (`SwapTheorems.SwapAfterAnyRun`).
- Work at or below the recorded position is skipped, and a built index may have
  something older than what is skipped
  (`SkipCounterexamples.SkipsASupersededChange`). It is sure to have nothing older,
  of a note or of the tree, exactly when the queue has no newer change of it above
  the recorded position (`SkipTheorems.SkippingExact`); otherwise that newer change goes on
  waiting (`SkipTheorems.SkippingAfterAnyRun`). The old index that answers while a
  build beside runs may be skipped past a change in any case: it is the build that
  accounts for it (`SkipCounterexamples.SkipsBesideABuild`).
- The search cursor does not fix the limit. A call neither skips nor repeats a
  hit if and only if its limit is not below what was already returned of any page
  (`VaultSearch.LimitExact`); a smaller one repeats hits
  (`VaultSearch.ShrinkingLimitRepeats`).
- `ResultCache.set` refuses a value that is too big without dropping an older
  entry of that key (`CacheTheorems.StoredThenRead`).
- Generations start again from zero when a shard restarts, and the cache is not
  told: a stale answer can be served until it expires
  (`CacheCoherence.StaleAfterRestart`, `CacheCoherence.CoherentAfterExpiry`).
  An entry is sure to be right exactly when it was stored no earlier than the
  present life of its shard began (`CacheCoherence.SureExact`); whatever is served
  was right in the life in which it was stored (`CacheCoherence.ServedFromALife`).
- `stableStringify` writes every number JSON has not as `null`, so `1e400` and
  `null` share a key (`CanonicalKeys.InfiniteCollides`); equal text means equal
  *as far as JSON keeps the value* (`CanonicalJson.StableIsCanonical`).
- When a base is read again, into another number of lots say, the signatures
  remembered for a lot that is no longer in the manifest can make a later read
  remove a row of another lot (`LotTheorems.StaleAfterRepartition`,
  `LotTheorems.StaleCellRemoves`). The signatures go on describing the index
  exactly when those still remembered of each lot that is not in the manifest are
  none (`LotTheorems.ReadBaseKeeps`).
- A read of a lot that fails after it wrote some rows leaves them beside the old
  signatures: a row that goes back to its former content is then taken for written
  (`LotTheorems.TornRowStays`). The next read that ends gives the index of a full
  rewrite exactly when no row written so has gone back, and none that is not
  remembered is gone (`LotTheorems.ReadLotExact`).
- On the desktop, an editor's text queued behind the reading of a newer file
  replaces it while the signature still vouches for the file
  (`DesktopIndexer.LateTextStays`, `DesktopIndexer.NoteTextExact`). The comment at
  apps/desktop/src/DesktopVaultIndexer.ts:103 says the file will be read again.
  Nor does a full pass bring back the content of a file once a text newer than it
  was indexed (`DesktopIndexer.NewerTextStays`): a pass leaves the index as if made
  from scratch exactly when every note it does not read was right
  (`DesktopIndexer.ReconcileExact`).
- `createZip` does not check the length of names
  (`ZipTheorems.ReadableExactly`), and `mapLimit` with no worker returns before
  any result is there (`Concurrency.MapLimitEnds`).

## Model

| member | source | states |
|---|---|---|
| PeerTheorems.NothingIsLost | apps/indexer/src/store.ts:362-408 | For each vault, from a first start, over every run of writes, registrations, polls, units, builds, saves, failures and crashes whose steps are in order for that vault, whatever befalls the others (of the crashes, those that do not lose a change outright): whatever its built index lacks is announced by a feed row above both its recorded positions, which is beyond the point the feed resumes from or waits in memory, and is above the saved position unless a crash would lose a change now. |
| PeerTheorems.QuietMeansCurrent | apps/indexer/src/feed.ts:137-165 | In any such run, when a built vault has nothing waiting and the feed has been read past its last write, its index is exactly what indexing the backend's tree and documents from scratch gives, each content read under the extension its note has in the tree. |
| PeerMachine.PeerStepKeeps | apps/indexer/src/feed.ts:137-227 | Each of the peer's steps (backend writes, registrations, polls, dispatch, rewind, saves, steps inside any vault, crash, shard death) that is in order for a vault keeps its invariant, that of the cursor and the saved position, and that of a page in flight. |
| PeerMachine.RegistersExact | backend/Savoire.API/Api/Hubs/VaultHub.cs:84-87 | A registration keeps what is kept for its vault if and only if it comes before anything has taken the document for gone. |
| PeerTheorems.WindowOpens | apps/indexer/src/store.ts:1229-1256 | A crash while a vault is being rebuilt keeps every promise; a crash once the build has ended does if and only if no last write that the index it installs lacks is left waiting at or below the saved position. |
| PeerTheorems.SafetyWindow | apps/indexer/src/store.ts:399-408 | The guard that is enough for a crash to be safe, that a built index waits for nothing at or below the saved position: no step but the end of a build breaks it, of this vault or of another, and the next save restores it. |
| PeerTheorems.CrashExact | apps/indexer/src/feed.ts:216-227 | A crash keeps every promise made for a vault if and only if it is not built, or no last write of a resource its index lacks waits in its memory alone, at or below the saved position. |
| PeerTheorems.ShardFailsExact | apps/indexer/src/service.ts:172-177 | The death of its shard keeps every promise made for a vault if and only if no last write its built index lacks waits in its memory alone, at or below the saved position, and no page in flight starts above that position. |
| PeerTheorems.SaveOverRewindExact | apps/indexer/src/feed.ts:216-226 | A save between the death of a shard and the rewind keeps every promise, then and after a crash, if and only if the built index lacks no last write between the position to rewind to and the one saved. |
| PeerTheorems.DispatchExact | apps/indexer/src/feed.ts:158-165 | A page dispatched from a position beyond what a vault was handed (over a rewind, or after a loss of memory) keeps every promise if and only if each write it jumps over is accounted for by the index, the unit and the build without its announcement. |
| PeerTheorems.DispatchAfterLossExact | apps/indexer/src/feed.ts:164-165 | For a vault whose memory was just lost: if and only if its built index lacks no last write between the saved position and the start of the page. |
| PeerTheorems.SaveIsSafe | apps/indexer/src/feed.ts:216-227 | The position `persist` saves is below every change a built index waits for. |
| SkipTheorems.SkippingAfterAnyRun | apps/indexer/src/store.ts:757-760 | After any orderly run from a first start or from rest: of what a unit is about to skip because its stamp is at or below the recorded position, a built index has nothing older (no older content of the document; for the tree, no note where only older trees put it) and a build under way will have nothing older, unless the queue has a newer change of it above the recorded position, which then goes on waiting; and the skip loses nothing. |
| SkipTheorems.SkippingExact | apps/indexer/src/store.ts:757-760 | For the tree or a document and any stamps: every built vault the invariants allow, about to skip that stamp with that entry in its queue, has nothing older than it in its index, if and only if no newer change waits above the recorded position. |
| SkipSafety.StepAccounts | apps/indexer/src/store.ts:753-1262 | Every step of a unit or a build keeps each stamp ever handed over accounted for, of a document or of the tree, superseded or not: nothing older is in the index, or in what the job or the build will leave, or that stamp or a newer one is announced above all that is claimed. |
| SkipCounterexamples.SkipsASupersededChange | apps/indexer/src/store.ts:757-760 | An orderly run from rest: a change waits with its unit for the vault, a newer one supersedes it, a build records a position between the two, and the unit is about to skip a version the built index does not hold. |
| SkipCounterexamples.SkipsBesideABuild | apps/indexer/src/store.ts:757-760 | An orderly run from rest: a build drops a change it will read, the old index records a position above it, the feed is rewound, and the unit is about to skip a version the old index does not hold, with nothing newer waiting. |
| PeerTheorems.RunKeeps | apps/indexer/src/store.ts:753-794 | The invariant of a vault holds at the end of every run, in order for it, that starts with it, of any length. |
| SwapTheorems.SwapAfterAnyRun | apps/indexer/src/store.ts:1219-1256 | After any orderly run from a first start or from rest, a note the swap installs is at least as recent as the one the old index served, and as any a live unit wrote since the build started, if and only if it is not behind: written by the backend after the build read it last, and read and written since by a live unit. If it is behind, the unit that wrote it failed or did not have it in its work, and the write it lacks is still announced. |
| SwapPace.SwapExact | apps/indexer/src/store.ts:1229-1256 | The same of one vault, from the record of what the backend, the live units and the build did to each document. |
| SwapPace.OwnStepPace | apps/indexer/src/store.ts:753-1262 | Each step of a unit or a build keeps that record true of the versions the old index, the unit and the build have in hand. |
| SwapCounterexample.SwapGoesBack | apps/indexer/src/store.ts:778-781 | An orderly run from rest: the build reads a note, the backend writes it, a live unit that has only the tree in its work writes it to the old index, and the swap serves the older version again. |
| PeerCounterexamples.CrashAfterBuild | apps/indexer/src/store.ts:1229-1262 | A run from a peer at rest, in order but for the crash: a build ends, the process stops before the next save, and afterwards the index lacks a change with nothing left to read and nothing waiting. |
| PeerCounterexamples.ShardDiesAfterBuild | apps/indexer/src/store.ts:1229-1262 | A run from a peer at rest, in order but for the death of the shard: a build ends, the shard dies before the next save, the feed is rewound to the saved position, and a change is lost. |
| PeerCounterexamples.SaveBeforeRewind | apps/indexer/src/feed.ts:216-226 | A run from a peer at rest, in order but for a save that starts between the death of a shard and the rewind: a change is lost. |
| PeerCounterexamples.PageInFlight | apps/indexer/src/feed.ts:164-165 | A run from a peer at rest, in order but for a shard that dies with a page in flight: the page is dispatched, a unit records its position, and the change replayed before it is skipped as already applied. |
| PeerCounterexamples.UnregisteredDocument | apps/indexer/src/store.ts:875-884 | A run from a peer at rest, in order but for a registration that comes late: the tree names the document first, it is taken for gone, and its later change is dropped as not indexed. |
| VaultSafety.StepKeeps | apps/indexer/src/store.ts:753-1262 | Every step of a live unit or of a build, in any interleaving, keeps the vault's invariant: what is not current is announced, no recorded position claims a change the index lacks, what a build does not account for is announced. |
| VaultSafety.StartUnitKeeps | apps/indexer/src/store.ts:753-761 | Dropping what the recorded position covers, and starting the rest, keeps the invariant even when stamps moved since the work was taken. |
| VaultSafety.UnitDoneKeeps | apps/indexer/src/store.ts:778-783 | Settling a finished unit and adding it to the replay set drops only changes the answering index or the build reflects, whatever was written meanwhile; the position it is about to record claims nothing more. |
| VaultSafety.BuildStartKeeps | apps/indexer/src/store.ts:1101-1105 | The changes a build drops at its start are covered by what it is going to read. |
| VaultSafety.UseTreeKeeps | apps/indexer/src/store.ts:1133-1138 | In place, the tree entry last seen strictly before the tree was asked for can be dropped: what was read covers it. |
| VaultSafety.WriteRowsKeeps | apps/indexer/src/store.ts:1174-1192 | Writing notes that were read, and in place dropping their entries last seen strictly before the read, drops no change the build does not cover, even if a rewind delivered it again. |
| VaultSafety.PruneKeeps | apps/indexer/src/store.ts:1206-1217 | Removing what the tree does not name leaves the build with the paths of the tree it read, and every document covered or announced. |
| VaultSafety.ReplayKeeps | apps/indexer/src/store.ts:1219-1227 | Draining the replay set into a job on the new index loses none of what live units did meanwhile. |
| VaultSafety.MeasureKeeps | apps/indexer/src/store.ts:1229-1237 | Under the vault mutex, with an empty replay set, the position a build settles on claims nothing its index lacks, whatever the feed hands over before it is recorded. |
| VaultSafety.FinishKeeps | apps/indexer/src/store.ts:1238-1256 | The index a build installs is current for every resource not still announced, and the position it records claims nothing it lacks. |
| VaultSafety.BackendWriteKeeps | backend/Savoire.Domain/ReadModels/IndexerChange.cs:5-10 | A write of the backend, at any moment and with a stamp above all others, keeps the invariant: the resource it makes stale is announced beyond what was delivered. |
| VaultSafety.DeliverKeeps | apps/indexer/src/store.ts:362-396 | A page of the feed, new or replayed, that holds every row of the vault between two positions keeps the invariant, during units and builds, when it starts at or before what was handed over. |
| VaultSafety.DeliverExact | apps/indexer/src/store.ts:362-396 | Wherever it starts: if and only if it jumps over no write that nothing but its announcement accounts for. |
| VaultSafety.ForgetExact | apps/indexer/src/store.ts:399-408 | Losing a vault's memory and reading the feed again from a position already handed over keeps the invariant if and only if no last write known from memory alone is at or below that position. |
| VaultSafety.ForgetAnywhere | apps/indexer/src/store.ts:399-408 | From any position: if and only if every last write a built index lacks is above it. |
| Registration.RegisteringExact | backend/Savoire.API/Api/Hubs/VaultHub.cs:84-87 | A document that joins the registry after the tree names it keeps the invariant if and only if every job and build under way has yet to read it and is in order with the tree, or the change of the tree still waits above all that is claimed. |
| IndexJob.JobStepKeeps | apps/indexer/src/store.ts:806-933 | Reading the tree, applying it in parts, looking documents up, reading and writing them: a resource the job was going to leave current is still so after each step; the tree is current only if every content in the index was read under the extension its note has. |
| IndexJob.JobStepServes | apps/indexer/src/store.ts:806-933 | A job never spoils, on its way, a resource for which the index is current. |
| IndexJob.JobEnds | apps/indexer/src/store.ts:806-933 | A finished job leaves the index current for every resource it was going to leave current. |
| IndexJob.JobStarts | apps/indexer/src/store.ts:806-829 | A job started for some resources is going to leave them current, and every resource that was; the tree too when it is to be read in any case. |
| IndexJob.ReadAgainExact | apps/indexer/src/store.ts:840-849 | When a tree is applied, a note is going to be read again if and only if the tree names it and the index does not hold its content as read under the extension it goes to; the notes that stay keep their content at their new path, and the others leave the index. |
| IndexJob.LookUpExact | apps/indexer/src/store.ts:875-884 | Looking the announced documents up adds to what is read exactly those the index has, at the paths it has them. |
| IndexJob.RegisterExact | apps/indexer/src/store.ts:875-884 | Registering a document the tree names already unsays what the index has for the tree, and leaves a job going to be in order with it if and only if it has yet to read that document. |
| IndexJob.OthersUntouched | backend/Savoire.Domain/ReadModels/IndexerChange.cs:5-10 | A backend write in the middle of a job affects, in what the index has and in what the job will leave, only the resource written. |
| IndexJob.CurrentEverywhere | apps/indexer/src/store.ts:826-871 | An index current for the tree, as far as it names registered documents, and for every document is exactly the one made from scratch, paths, contents and the extensions they were read under. |
| ChangeQueue.LeastStampUnique | apps/indexer/src/store.ts:148-152 | Any stamp that waits and is at most every other is the value of the least-stamp function. |
| ChangeQueue.QueuedExact | apps/indexer/src/store.ts:1419-1421 | After any sequence of announcements to an empty queue, a resource waits if and only if it was announced, with the greatest stamp announced, the time of its first announcement and that of its last. |
| ChangeQueue.TakenExact | apps/indexer/src/store.ts:738-744 | A resource announced any number of times is taken `debounce` after its last announcement, and `debounceMax` after its first however many follow, and not before; with the greatest stamp announced. |
| Store.VaultQueue.Announce | apps/indexer/src/store.ts:378-384 | In place: the resource's entry is merged (greatest stamp, first seen kept, last seen now), every other entry stays, and the greatest stamp seen moves up. |
| Store.VaultQueue.TakeDue | apps/indexer/src/store.ts:738-744 | The loop returns a resource if and only if it waits and the debounce is over since it was last seen, or the longest wait since it was first seen; each with its stamp. |
| Store.VaultQueue.Settle | apps/indexer/src/store.ts:747-751 | In place: exactly the entries whose stamp is still the one done go. |
| Store.VaultQueue.SkipApplied | apps/indexer/src/store.ts:757-760 | In place: the work left is what is above the recorded position; what is dropped from it is also settled. |
| Store.VaultQueue.LowWater | apps/indexer/src/store.ts:797-800 | The position to record is never below the floor; above it, it is no more than the greatest stamp seen and below every stamp that waits; and it is the greatest such. |
| Store.VaultQueue.DropUpTo | apps/indexer/src/store.ts:1102-1105 | In place: exactly the entries above the build's starting position stay. |
| Store.VaultQueue.DropTree | apps/indexer/src/store.ts:1133-1138 | In place: the tree's entry goes if and only if it was last seen strictly before the tree was asked for. |
| Store.VaultQueue.DropRead | apps/indexer/src/store.ts:1188-1192 | In place: exactly the entries of these notes last seen strictly before the read go. |
| Store.RowByRow | apps/indexer/src/store.ts:362-387 | A page taken row by row, each resource there once, leaves the queue that delivering the whole page at once leaves. |
| Store.ShardQueues.Changes | apps/indexer/src/store.ts:362-396 | The loop over a page brings each vault its own rows in order, and nothing of another's; the reached position moves up. |
| Store.ShardQueues.LowWater | apps/indexer/src/store.ts:399-408 | One less than the least stamp waiting over the vaults not to be rebuilt, or none when none waits. |
| VaultSteps.DroppedExact | apps/indexer/src/store.ts:753-1192 | Of all steps of a unit or a build, an entry of the queue goes exactly at these: a unit starts and its stamp is the work's and at or below the recorded position; a unit is done and its stamp is the work's; a build starts and its stamp is at or below the position it starts from; a build in place uses the tree, or writes the note, that was asked for strictly after the entry was last seen. No entry changes otherwise, and none comes. |
| VaultSteps.PositionExact | apps/indexer/src/store.ts:782-800 | A unit that is done goes on to record the greatest position below all that still waits, if it is an advance; the end of a build settles it from the build's starting point on; what was settled is what is recorded, also in memory; and at the first check the recorded position is taken up again exactly for a file that is built or can be trusted. |
| Feed.Positions.Resume | apps/indexer/src/feed.ts:143-147 | In place: the cursor goes back to the rewind position, never forward, and the request is gone. |
| Feed.Positions.Dispatched | apps/indexer/src/feed.ts:164-165 | In place: the cursor advances to the page's end, unless a rewind was asked for meanwhile. |
| Feed.Positions.Persist | apps/indexer/src/feed.ts:216-227 | Saves if and only if every shard answered; then the position is the captured cursor held back by the least answer, never negative; otherwise it does not move. |
| Feed.HeldBackIsSafe | apps/indexer/src/shards.ts:203-211 | When each vault is on one shard, the position saved from the shards' answers is the one computed over all vaults together. |
| GlobalSearch.CompareOrders | apps/indexer/src/globalSearch.ts:51-55 | `compare` is negative exactly when the first hit has the better score, then the smaller vault id, then the smaller id; zero exactly on equal hits; and antisymmetric. |
| GlobalSearch.AheadTransitive | apps/indexer/src/globalSearch.ts:51-55 | That order is transitive. |
| GlobalSearch.MergePages | apps/indexer/src/globalSearch.ts:58-78 | The loops over mutable positions return the hits and the remaining parts of the recursive merge, the one the pagination theorems are about; and a call returns fewer hits than `limit` only if some page with a next one was returned whole from its start on, or if all pages were. |
| SearchPagination.MergeTakesOff | apps/indexer/src/globalSearch.ts:58-71 | The hits of a merge and what stays behind them are exactly what was left; the hits are in strict order, at most `limit`, and ahead of everything that stays, including pages not seen yet. |
| SearchPagination.CallExact | apps/indexer/src/globalSearch.ts:58-78 | A call and the cursor it hands back together announce exactly what was announced before, if and only if every page read again is at least as long as what was already returned of it. |
| SearchPagination.PaginationIsTheGlobalSort | apps/indexer/src/service.ts:307-352 | Over any vaults, page sizes and limits of at least 1, the hits of a run to an empty cursor are strictly sorted by score, vault and id, and are exactly all hits of all vaults. |
| SearchPagination.SortedUnique | apps/indexer/src/globalSearch.ts:51-55 | There is only one strictly sorted list of given hits, so the run returns the global sort, without duplicate or omission. |
| SearchPagination.CallAdvances | apps/indexer/src/globalSearch.ts:58-78 | Each call returns a hit, moves a vault to a later page, or is done with one: what there is to go through shrinks. |
| SearchPagination.RunsEnd | apps/indexer/src/service.ts:307-352 | No run that still has a cursor is longer than what there was to go through. |
| VaultSearch.KeysetIsLawful | packages/indexer-core/src/powers/search.ts:109-135 | The page a vault gives (the hits strictly after the cursor's, at most `limit`, one more read to know if there is a next page) is a stretch of its sorted list that starts where the last one ended, as long as the limit or as what is left, and announces a next page exactly when hits remain. |
| VaultSearch.LimitExact | apps/indexer/src/service.ts:303-316 | With those pages, a call neither skips nor repeats if and only if its limit is not below what was already returned of any page. |
| VaultSearch.NeverShrinkingIsTheGlobalSort | apps/indexer/src/service.ts:307-352 | A client whose limit never shrinks makes a run whose output is sorted and which, once its cursor is empty, is the global sort; it is empty after a bounded number of calls. |
| VaultSearch.ShrinkingLimitRepeats | apps/indexer/src/globalSearch.ts:59-59 | Three hits, two returned with limit 3: with limit 1 the cursor announces the second again. |
| SearchCursor.DecodeCursor | apps/indexer/src/globalSearch.ts:32-49 | The loop accepts exactly the well-formed cursors, reads each entry with its defaults (no page cursor, nothing returned), and refuses the whole cursor if one entry cannot be read. |
| SearchCursor.RoundTrip | apps/indexer/src/globalSearch.ts:28-49 | What `encodeCursor` writes is well formed and holds the same parts, in order, and the same flag. |
| SearchCursor.DecodeEncoded | apps/indexer/src/globalSearch.ts:28-49 | Decoding what was encoded gives it back. |
| PrioritySlot.PrioritySlot.Pick | apps/indexer/src/sched.ts:107-125 | In place: the pick is out of age if and only if three picks have passed since the last such one and the first live task has waited for more than 300 ms or the first build for more than 2000 ms, live first; otherwise it is the head of the first nonempty queue by priority; the count and the queues move accordingly; nothing is taken if and only if nothing waits. |
| PrioritySlot.PrioritySlot.Run | apps/indexer/src/sched.ts:60-92 | In place: a task already aborted is rejected; otherwise it queues in its priority and the next task starts if the slot is free. |
| PrioritySlot.PrioritySlot.Abandon | apps/indexer/src/sched.ts:83-87 | In place: a task still waiting is taken out of its queue and rejected; one already started is not. |
| PrioritySlot.PrioritySlot.RejectAll | apps/indexer/src/sched.ts:95-97 | In place: every waiting task is rejected, the running one is not. |
| SlotTheorems.SlotIsExclusiveFairAndNeverIdle | apps/indexer/src/sched.ts:60-125 | Over every run of submissions, ends, aborts and cancellations: what started has finished but for the one that runs, the slot is never free while a task waits, starts are first come first served within a priority, and two starts out of age are at least four starts apart. |
| SlotTheorems.EachTaskOnce | apps/indexer/src/sched.ts:60-105 | Each task submitted is started once, rejected once, or still waits, never two of these; no other task ever starts. |
| SlotTheorems.BypassIsBounded | apps/indexer/src/sched.ts:107-125 | While an aged task waits, the starts that pass it are at most four for each task before it, plus what is left of the count, plus four for each task of a higher priority that passes out of age. |
| SlotTheorems.AgedTasksPass | apps/indexer/src/sched.ts:23-24 | A live task behind j others that has waited for more than 300 ms is passed by at most 4j + 3 starts whatever comes in; a build behind j others that has waited for more than 2000 ms by four more for each live task that passes out of age. |
| SlotTheorems.SpacedKept | apps/indexer/src/sched.ts:107-125 | Any four consecutive starts hold at most one out of age: each step keeps it. |
| ResultCache.Cache.Get | apps/indexer/src/cache.ts:48-61 | In place: returns a value if and only if the cache is enabled and there is an entry of that key and generation within its time, whose value it is and which becomes the most recent; a stale entry is dropped; the byte count stays exact. |
| ResultCache.Cache.Set | apps/indexer/src/cache.ts:63-76 | In place: a value with its key above an eighth of the bound in bytes, or a cache that is off, changes nothing; otherwise it becomes the most recent entry and the fewest oldest entries go for both bounds to hold; the loop ends and the byte count is exact. |
| ResultCache.Cache.Evict | apps/indexer/src/cache.ts:71-75 | The eviction loop ends with the newest entry kept, having removed a shortest possible run of the oldest ones. |
| ResultCache.Cache.Forget | apps/indexer/src/cache.ts:79-81 | In place: exactly the entries of the vault go, the others in the same order, the byte count exact. |
| CacheTheorems.ReadsTheLastAccepted | apps/indexer/src/cache.ts:48-81 | Over any sequence of reads, writes and vaults forgotten: a value read is the last one accepted for its key since its vault was last forgotten, at that generation and within its time; both bounds hold, and each entry is at most an eighth of the bound in bytes; entries stand in order of last use, so eviction takes the least recently used. |
| CacheTheorems.EvictionIsExact | apps/indexer/src/cache.ts:71-75 | The entries eviction leaves are determined by the entries before. |
| CacheTheorems.NewestStays | apps/indexer/src/cache.ts:63-76 | Eviction never takes the entry just stored. |
| CacheTheorems.StoredThenRead | apps/indexer/src/cache.ts:63-67 | An entry is found again after it was stored if and only if it was not too big (or was there already); if it was too big, what is found is what was there before. |
| CacheTheorems.KeyIsInjective | apps/indexer/src/cache.ts:43-45 | For vault ids and names without the zero character, equal keys mean the same vault, capability, method and parameters. |
| CacheCoherence.CacheIsCoherent | apps/indexer/src/service.ts:253-278 | Within one life of the shards, under any interleaving of index changes, answers, messages on their way, late stores, lookups and evictions: what a call is served from the cache is what its vault's index answered to that same call at the generation the main thread knows. |
| CacheCoherence.ServedIsCoherent | apps/indexer/src/shards.ts:118-130 | The same with restarts in the run, for an entry stored since the vault's shard last started. |
| CacheCoherence.ServedIsCurrent | apps/indexer/src/shards.ts:118-192 | Whatever restarts: once no generation of the vault is on its way to the main thread any more, what a call is served, if it was stored since the vault's shard last started, is what its index answers now. |
| CacheCoherence.CoherentAfterExpiry | apps/indexer/src/cache.ts:51-55 | With restarts, everything served is coherent once the time to live has passed since the last one. |
| CacheCoherence.SureExact | apps/indexer/src/cache.ts:48-61 | For any times: an entry stored at the one, under a shard whose present life began at the other, is served only when it is what the index answers at the generation known, in every run, for every index and all limits, if and only if it was stored no earlier than that life began. |
| CacheCoherence.ServedFromALife | apps/indexer/src/cache.ts:48-61 | Whatever restarts: a call is served what its vault's index answered to it, at the generation known, in the life of the shard that was running when the answer was stored. |
| CacheCoherence.StaleAfterRestart | apps/indexer/src/service.ts:172-177 | For any time of storing, later start of the shard's next life and time to live that spans them: a run in which the index changes, its shard dies before saying so, and a call is then served an answer its index does not give at the generation known. |
| CacheCoherence.StepKeeps | apps/indexer/src/store.ts:413-430 | Each step keeps every message on its way, every reply received and every entry of the present life equal to what the index answered at that generation. |
| JsonNumber.NumberTextIsInjective | apps/indexer/src/util.ts:43-43 | Finite numbers with the same ECMAScript text are equal, minus zero counting as zero. |
| JsonString.QuoteReadsBack | apps/indexer/src/util.ts:43-46 | Two texts that start with a quoted string and are equal start with the same string and go on the same: a quoted string is read back in one way, escapes and lone surrogates included. |
| CanonicalJson.ReadsBack | apps/indexer/src/util.ts:42-47 | The canonical text is uniquely decodable, inside any larger text: equal texts hold values of which JSON keeps the same, followed by the same rest. |
| CanonicalJson.StableIsCanonical | apps/indexer/src/util.ts:41-47 | Two values have the same text if and only if JSON keeps the same of them (keys sorted, undefined members gone, undefined items and numbers that are not finite null). |
| CanonicalJson.KnownText | apps/indexer/src/util.ts:41-47 | A text as it is written: of an object with a list, a string with a line end and an undefined member, its keys out of order. |
| CanonicalKeys.ObjectsAreMaps | apps/indexer/src/util.ts:45-46 | Two objects have the same text if and only if, as maps, they give each key the same. |
| CanonicalKeys.CacheKeyIsExact | apps/indexer/src/service.ts:265-265 | Cache keys are equal if and only if vault, capability, method and what JSON keeps of the parameters are. |
| CanonicalKeys.InfiniteCollides | apps/indexer/src/util.ts:43-43 | A number too big for a double has the text of null. |
| LotIndexing.Hash | apps/indexer/src/util.ts:18-25 | The loop computes 32-bit FNV-1a over the UTF-16 units. |
| LotIndexing.MixExact | apps/indexer/src/util.ts:21-22 | One turn: the unit is added in by exclusive or first, then the word is the sum of its products by 2^24, 2^8, 2^7, 2^4, 2 and 1, wrapping at 32 bits. |
| LotIndexing.KnownHashes | packages/plugin-api/src/query.ts:183-190 | The published values of this hash for "a" and "foobar". |
| LotIndexing.BaseLotOf | packages/plugin-api/src/query.ts:183-190 | The lot of a row is that hash, as an unsigned number, modulo the number of lots, and 0 when that number is 1 or less. |
| LotIndexing.WrittenExact | apps/indexer/src/store.ts:1020-1024 | A row of the lot is written if and only if the signature known for it, if any, is not its own. |
| LotIndexing.LotStore.IndexLot | apps/indexer/src/store.ts:1011-1050 | In place: writes, chunk by chunk, the rows whose signature is not the known one, removes the known rows that are gone (or, if nothing is known, the lot's rows in the index that are gone), and remembers the signatures, at most 64 lots. |
| LotIndexing.LotStore.IndexBase | apps/indexer/src/store.ts:986-1004 | In place: after every lot of the manifest is read in full and the rest removed, the rows of the base are exactly those of its lots; rows of other bases do not change. |
| LotIndexing.LotStore.Remember | apps/indexer/src/store.ts:1046-1048 | In place: the lot becomes the last one remembered, and the oldest go while there are more than 64; none goes while there were fewer. |
| LotIndexing.LotStore.ForgetLots | apps/indexer/src/store.ts:952-958 | In place: exactly the signatures of the vault, or of the one base, go. |
| LotTheorems.IncrementalIsFull | apps/indexer/src/store.ts:1011-1045 | If the known signatures describe the lot in the index, or none are known, the incremental read leaves the rows that deleting the lot and writing all its rows would. |
| LotTheorems.IncrementalExact | apps/indexer/src/store.ts:1011-1045 | It does so if and only if no row taken for written is missing or different and, of the rows not in the lot any more, the known ones are those of the index. |
| LotTheorems.ReadLotExact | apps/indexer/src/store.ts:1011-1045 | Reading a lot against its remembered signatures, after any reads of it that failed on the way, leaves what rewriting it in full would if and only if none is remembered, or no row those reads wrote has gone back to its remembered content and none they wrote and that is not remembered is gone. |
| LotTheorems.ReadLotKeeps | apps/indexer/src/store.ts:1011-1050 | After a lot is read so, every remembered set of signatures still describes its lot in its index space, evictions included. |
| LotTheorems.FailureKeeps | apps/indexer/src/store.ts:1026-1047 | After a read that fails between two transactions, the remembered signatures with the rows it wrote describe the lot, and the others theirs. |
| LotTheorems.FullLotKeeps | apps/indexer/src/store.ts:994-997 | After a lot is read in full in a read of its base that goes no further, its new signatures with the rows left over describe it. |
| LotTheorems.ReadBaseKeeps | apps/indexer/src/store.ts:986-1004 | After a whole base is read, into the same number of lots or another and whatever reads of it failed before, the remembered signatures describe their lots if and only if those still remembered of each lot of the base that is not in the manifest are none. |
| LotTheorems.InAnotherLot | apps/indexer/src/store.ts:994-997 | After a whole base is read, each of its rows is in the index and belongs to no lot that is missing from the manifest: signatures remembered of such a lot that name the row are stale. |
| LotTheorems.StaleCellRemoves | apps/indexer/src/store.ts:1034-1036 | Signatures remembered of a lot with a row that is now in another lot: when the lot is read without that row, it is removed, where a full rewrite keeps it. |
| LotTheorems.DropBaseKeeps | apps/indexer/src/store.ts:850-857 | After a base that left the tree loses its rows and its signatures, likewise. |
| LotTheorems.StepExact | apps/indexer/src/store.ts:972-1050 | Each operation (a lot read, or read until it fails, or read in full in a base read that goes no further, a base read, a base dropped, signatures forgotten) gives the index it gives without any cache of signatures, if and only if a lot that failed reads left torn reads whole again. |
| LotTheorems.IncrementalRefinesFull | apps/indexer/src/store.ts:972-1050 | Over any sequence of these operations, bases divided into another number of lots, in either index space, evictions included, each torn lot reading whole again: the index is the same as without any cache of signatures. |
| LotTheorems.StaleAfterRepartition | apps/indexer/src/store.ts:986-1004 | A base that goes from one lot to two: signatures left from its first lot make a later read remove a row that a full rewrite keeps. |
| LotTheorems.TornRowStays | apps/indexer/src/store.ts:1026-1047 | A read that writes a row and fails, then a read that finds the row back at its former content: the index keeps what the first wrote, where a full rewrite would not. |
| Crc32.Summer.Crc32 | apps/web/src/zipArchive.ts:23-35 | For every byte string the table-driven loop computes the bit-at-a-time CRC-32 of section 8 of RFC 1952, which CrcPolynomial shows to be a remainder. |
| Crc32.Summer.MakeTable | apps/web/src/zipArchive.ts:24-31 | Each of the 256 words of the table is so many turns (eight in `crc32`) of the bit register from its index; with eight, the word at 128 is the constant 0xedb88320. |
| CrcPolynomial.CrcIsTheRemainder | apps/web/src/zipArchive.ts:23-35 | For every byte string, the CRC is the one word whose complement is the remainder, over GF(2), of the message times x^32 with its first 32 bits complemented (the low bit of each byte first), divided by x^32+x^26+x^23+x^22+x^16+x^12+x^11+x^10+x^8+x^7+x^5+x^4+x^2+x+1. |
| CrcPolynomial.TurnDivides | apps/web/src/zipArchive.ts:28-28 | A turn of the register multiplies its polynomial by x and takes that divisor away exactly when the bit that falls out is set. |
| Crc32.CheckValue | apps/web/src/zipArchive.ts:23-35 | The CRC of the digits from 1 to 9 is 0xcbf43926. |
| Crc32.ByteByTable | apps/web/src/zipArchive.ts:33-33 | The table word at the low byte, with the register shifted by eight, is what taking the byte's eight bits one at a time gives. |
| Crc32.BitsAtOnce | apps/web/src/zipArchive.ts:33-33 | Taking the bits of a message of at most n bits one by one is adding the whole message, then turning n times. |
| Crc32.TurnsKeepSum | apps/web/src/zipArchive.ts:28-28 | Turning the register is linear over exclusive or, any number of times. |
| ZipArchive.LocalHeader | apps/web/src/zipArchive.ts:61-72 | The 30 bytes written into the buffer start with 50 4b 03 04 and read back, little-endian, as the local header of section 4.3.7 for that entry. |
| ZipArchive.DirHeader | apps/web/src/zipArchive.ts:75-89 | The 46 bytes start with 50 4b 01 02 and read back as the directory header of section 4.3.12, with the folder attribute and the offset. |
| ZipArchive.EndHeader | apps/web/src/zipArchive.ts:95-101 | The 22 bytes start with 50 4b 05 06 and read back as the end record of section 4.3.16. |
| ZipTheorems.WriteArchive | apps/web/src/zipArchive.ts:47-102 | The archive is refused if and only if there are too many entries, or one is too long or starts too far; otherwise each directory entry points at its own local header and the record at the end at the directory. |
| ZipTheorems.ZipRoundTrip | apps/web/src/zipArchive.ts:47-103 | A reader that starts at the end record recovers the list of names, data, CRCs, folder flags and the dates of both headers, when names fit 16 bits and the directory starts below 4 GiB. |
| ZipTheorems.ReadableExactly | apps/web/src/zipArchive.ts:71-86 | With offsets that fit, the reader recovers the entries if and only if every name fits 16 bits. |
| ZipExport.CreateZip | apps/web/src/zipArchive.ts:47-103 | Refused if and only if there are more than 65535 entries, or one is longer than 4294967295 bytes or starts beyond that. Otherwise, if the directory starts within it: every entry is read back, in order, with its bytes and their CRC, a name that is flagged as UTF-8 and that a strict reader of it takes for its path, whether that path ends with a slash, and its time and day in both headers, if and only if every path takes at most 65535 bytes in UTF-8. |
| ZipExport.FoldersEndWithSlash | apps/web/src/zipArchive.ts:88-88 | The folder flag read back is set exactly when the name read back, in bytes, ends with a slash. |
| Utf8.EndsWithSlash | apps/web/src/zipArchive.ts:55-88 | A path ends with a slash if and only if its UTF-8 bytes do. |
| Utf8.DecodeEncoded | apps/web/src/zipArchive.ts:55-55 | A strict reader of UTF-8 (no overlong form, no surrogate, nothing past U+10FFFF) gets back the text, each lone surrogate replaced by U+FFFD. |
| Utf8.DecodeExact | apps/web/src/zipArchive.ts:55-55 | Only the encoding of a text is read back so: the reader takes nothing but what the writer gives. |
| Routing.Fnv1a64 | backend/Savoire.Application/Indexer/IndexerRouting.cs:22-31 | The loop computes 64-bit FNV-1a, wrapping, over the UTF-8 bytes. |
| Routing.MixExact | backend/Savoire.Application/Indexer/IndexerRouting.cs:27-28 | One turn: the byte is added in by exclusive or first, then the word is the sum of its products by 2^40, 2^8, 2^7, 2^5, 2^4, 2 and 1, wrapping at 64 bits. |
| Routing.KnownWeight | docs/Architecture/indexer-protocol.md:29-29 | The weight the protocol gives for the instance "é" and the vault "v", from their characters on. |
| Routing.KnownHash | docs/Architecture/indexer-protocol.md:29-29 | The hash the protocol gives for "foobar". |
| Routing.OwnerOf | backend/Savoire.Application/Indexer/IndexerRouting.cs:37-52 | The loop returns none if and only if there is no instance; otherwise one of the list, whose weight is greater than that of every other, or equal with a name that comes first. |
| Routing.OwnerIsUnique | backend/Savoire.Application/Indexer/IndexerRouting.cs:37-52 | Lists that hold the same names give a vault the same owner, whatever their order, ties included. |
| Routing.OwnerExists | backend/Savoire.Application/Indexer/IndexerRouting.cs:37-52 | Every nonempty list has an owner. |
| Routing.JoiningMovesOnlyToIt | backend/Savoire.Application/Indexer/IndexerRouting.cs:9-9 | When an instance joins, a vault keeps its owner or goes to the new instance, and goes exactly when the new one beats the old owner. |
| Routing.LeavingMovesOnlyItsOwn | backend/Savoire.Application/Indexer/IndexerRouting.cs:9-9 | When an instance leaves, a vault changes owner if and only if it was its own. |
| DesktopIndexer.SignatureVouches | apps/desktop/src/DesktopVaultIndexer.ts:192-302 | Over any run of changes on disk and in the tree, listings, readings, failures and writings: if the stored signature is the one the file has now, the note is indexed at its path from a content at least as recent as the file. |
| DesktopIndexer.StepKeeps | apps/desktop/src/DesktopVaultIndexer.ts:192-302 | Each step keeps that, files changing between listing, reading and writing. |
| DesktopIndexer.NoteTextExact | apps/desktop/src/DesktopVaultIndexer.ts:101-105 | Indexing an editor's text keeps that if and only if the text is at least as recent as the file its stored signature vouches for, at the same path. |
| DesktopIndexer.LateTextStays | apps/desktop/src/DesktopVaultIndexer.ts:101-105 | A run after which an older text of the editor stands in the index while the signature says there is nothing to read. |
| DesktopIndexer.ReconcileExact | apps/desktop/src/DesktopVaultIndexer.ts:192-226 | A full pass while nothing changes, from any state of the index and the signatures, leaves the notes, paths and contents of indexing everything from scratch if and only if every note it did not read, because its stored signature is the listed one or because it could not be read, was right. |
| DesktopIndexer.ReconcileIsFromScratch | apps/desktop/src/DesktopVaultIndexer.ts:192-226 | From any state in which the signatures vouch for what is indexed, every document having its file, a pass that reads all it must gives the index made from scratch if and only if no note it does not read stands there in a version newer than its file. |
| DesktopIndexer.NewerTextStays | apps/desktop/src/DesktopVaultIndexer.ts:101-105 | A run with an editor's text newer than its file, after which a full pass reads nothing and the index is not the one made from scratch. |
| DesktopIndexer.Indexer.Compare | apps/desktop/src/DesktopVaultIndexer.ts:209-215 | The loop returns exactly the notes whose stored signature is not the path and what the listing says of their source, the file of a text or the state directory of the document otherwise; each with that signature. |
| DesktopIndexer.PlannedAgainExact | apps/desktop/src/DesktopVaultIndexer.ts:209-215 | Once its stored signature is the listed one, a note is planned again when a place changes if and only if that place is its own source: its file if it is text, the state directory of its document if it is not. |
| DesktopIndexer.Indexer.Reconcile | apps/desktop/src/DesktopVaultIndexer.ts:192-224 | In place: what is in no document any more leaves the index and the signatures; the notes to read are those of the comparison before. |
| DesktopIndexer.Indexer.ApplyDocs | apps/desktop/src/DesktopVaultIndexer.ts:293-294 | In place: the notes read get their content and the signature listed before the reading; the others do not change. |
| Concurrency.SemaphoreIsSafe | apps/indexer/src/util.ts:67-92 | Over any interleaving: never more than n inside; tasks wait only while n are inside, and the end of any of them lets the first in; tasks enter in the order they came. |
| Concurrency.Semaphore.Enter | apps/indexer/src/util.ts:81-83 | In place: a task enters at once or joins the end of the queue, and the caller is told which. |
| Concurrency.Semaphore.Leave | apps/indexer/src/util.ts:86-90 | In place: a finished task hands its place to the first that waits, or frees it. |
| Concurrency.MapLimitIsExact | apps/indexer/src/util.ts:95-106 | Under every interleaving: the function is called with each index once, in order, by at most n workers at a time, and each result stands at its own position. |
| Concurrency.MapLimitEnds | apps/indexer/src/util.ts:95-106 | When all workers have stopped, every result is there if and only if n is at least 1 or there is nothing to do. |
| Concurrency.Mapper.Take | apps/indexer/src/util.ts:99-100 | In place: a worker takes the next index, which no other will get, or stops when there is none. |
| Concurrency.Mapper.Put | apps/indexer/src/util.ts:101-101 | In place: a result goes to the position of its index, and nowhere else. |

## Left out

Circumstances the peer's theorems take for granted, because the code relies on
them without enforcing them:

- One epoch: `persist` captures the cursor, then uses the current epoch (apps/indexer/src/feed.ts:218-223), and `setEpoch` does not stop a build under way; changes of epoch are not steps of the model.
- Fixed ownership: vaults that leave, come back or are deleted (`own` with a full list, `orphan`, `deleteVault`, a backend that answers 404 for a vault) are not steps of the model.
- The death of a shard, its new start and its request to rewind are one step, taken at the new start: in between nothing is sent to it (apps/indexer/src/shards.ts:132-135), no position is saved (apps/indexer/src/feed.ts:216-227) and its files do not change. The rewind is another step. A save between the two, and a page in flight that starts above the saved position, are not in order; the list above says exactly when they lose nothing.
- A document is written by the backend only once it is registered; registering, naming in the tree and writing come in any order otherwise.
- Reasons to rebuild are those found again on disk (`decide`); a change of property types, which is not always found again, is left out. So is corruption found in the middle of a unit.
- Messages between the main thread and a shard keep their order, the answers of the shards to `lowWater` are taken at one moment, and a unit or a build completes or fails as a whole as far as its pending changes go.
- Documents can be read and decoded; unreadable, oversized or undecodable ones, which the code skips and counts, are not modelled, nor is the typing of row values (`loadSchema`, `onTypes`).

What else the model does not have:

- Feed.HeldBackIsSafe: takes the shards' answers as given at one moment.
- VaultSafety.StepKeeps: bases and row lots are not part of the coverage machine; they are proved apart, in LotTheorems.
- PeerMachine.PeerStepKeeps: debouncing only allows a unit to start later; the times themselves are computed in Store. Retries wait for no particular time.
- SearchPagination.PaginationIsTheGlobalSort: the vaults' indexes do not change during a run of calls, and every vault answers; a vault that fails is dropped from the cursor and the result marked partial by the source.
- VaultSearch.KeysetIsLawful: within a vault the source orders ids as SQLite does, by their UTF-8 bytes, and across vaults as JavaScript does, by UTF-16 units; the model takes the second order for both.
- VaultSearch.LimitExact: scores are real numbers and the ranking itself (full-text search, filters) is not modelled.
- SearchCursor.RoundTrip: the cursor is taken as the JSON value; its text, in base64url, and the order and special names of JavaScript records (names that look like integers, `__proto__`) are not modelled.
- CacheCoherence.CacheIsCoherent: an answer and its generation are read together, as calls hold the slot; the index answered for a power not built yet (one empty index shared by all vaults) is not an index of the model, and `forgetVault` and the feed's pauses only make the cache serve less.
- CanonicalJson.StableIsCanonical: numbers are given by their shortest decimal digits; that these are unique to a double is ECMA-262's. `toJSON` methods do not occur in parsed requests.
- LotTheorems.IncrementalRefinesFull: a row id belongs to one base and one lot, a lot is read with the number of lots its base was last read with in that index (a replay takes it from the index that serves, apps/indexer/src/store.ts:894-897), a manifest lists the lots whose rows are still remembered, a torn lot reads whole again, and a base leaves together with its signatures; the cleaning at the end of a build in place (apps/indexer/src/store.ts:1211-1216) does not forget them. That a base read that fails is not begun again by the unit's next try, its lots and their number being noted before they are read (apps/indexer/src/store.ts:974-992), is the same with and without the cache.
- ZipTheorems.ReadableExactly: above 4 GiB of entries the last offset wraps and nothing is claimed; data that happens to hold a copy of the directory could still be read. The reader takes the end record to be the last 22 bytes.
- ZipExport.CreateZip: the two words of a date are given; `Blob` is a sequence of bytes.
- DesktopIndexer.ReconcileExact: every note's type is one the index reads; states, batches, progress and disposal are left out. Its corollary ReconcileIsFromScratch is for documents that all have their file.
- DesktopIndexer.SignatureVouches: each change of a file changes its size or date, so that a signature names a content.
- Concurrency.MapLimitIsExact: a call that throws ends its worker; which error the whole then reports is not modelled.
- The queue of builds (order, demand, failures and their delays), the admission bound and time-outs of calls, `Mutex` (a queue of promises, taken as exclusive), statistics, metrics, HTTP, authentication, configuration and logging: plumbing, or claims read off one branch.
