# Verification of the storage core

A Dafny model of the parts of the file server that keep state, with proofs of what
they promise:

- **WebDAV locks** (`Names`, `ByExpiry`, `LockSpec`, `LockPromises`, `MemLS`, `LockRuns`,
  `LockService`).
  `MemLS.LockSystem` is the in-memory lock system as a class over nodes, a
  reference-counted name tree, a token map and an expiry heap. Each method is proved to be
  a function on a plain table of locks (`LockSpec`); what each operation promises and
  safety over all runs are proved about that table (`LockPromises`, `LockRuns`), and safety
  is brought back to the class (`LockService`).
- **Concurrent map** (`ConcurrentMap`, `MapRefinement`, `MapRuns`). `MapOf` as a transition
  system, one step per atomic load, store, compare-and-swap or stretch under the mutex, for
  any number of goroutines; it refines a plain map, and its iterations and promotions are
  followed through whole runs.
- **Directory sizes** (`DirSpec`, `DirSums`, `DirWalk`, `DirExact`, `DirectoryMap`,
  `DirMoves`). The size cache of the local driver with its explicit stacks, against plain
  recursion over the tree and the sums over all files by path, and what a move on disk does
  to it.
- **Parallel range downloader** (`ChunkSizes`, `Downloader`, `DownloadRuns`,
  `DownloadProgress`, `DownloadLimits`, `PipeBuffer`). Workers, reader, chunk channel and
  mutex as a transition system; the pipe buffer as another.
- **Block caches** (`BlockStores`, `FileStores`, `LinearMemory`, `HybridCache`). Memory,
  buffers and files, each a flat sequence of bytes, and the cache that runs over from one
  to the other, with the blocks it has handed out.
- **Transfers** (`TaskGroup`, `Transfer`, `TransferResult`, `TransferClash`,
  `TransferOutcome`). The group coordinator, and copying, moving or merging trees as tasks
  that run in any order and may fail, with what an upload removes, renames and restores on
  the way.
- **Readers** (`ReadAtSeeker`, `SyncClosers`). Random access over forward-only readers, and
  reference-counted closing.
- **Algorithms** (`IfHeader`, `IfHeaderText`, `IfHeaderRoundTrip`, `IfHeaderAccepts`,
  `EmptyDirectories`). The parser of the `If` header (section 10.4 of RFC 4918) with its
  inverse, and the worklist that removes empty directories.

`Wrappers` holds the `Option` they share.

The clock, the network, the disk and the operating system are parameters: the time `now`,
how much a call gives or takes before it fails, whether memory is granted, which paths
cannot be read. `dafny verify dfyconfig.toml` checks everything.

## Model
| member | source | states |
|---|---|---|
| Names.WalkToRoot | server/webdav/lock.go:352-366 | the loop calls its callback on the name and then on each ancestor up to the root, in that order |
| Names.ChainIsWithin | server/webdav/lock.go:352-366 | the names a walk to the root meets are exactly those that the name lies within, as prefixes at a slash |
| Names.ChainDistinct | server/webdav/lock.go:352-366 | the walk never meets a name twice |
| Names.SlashCleanIsClean | server/webdav/file.go:26-31 | whatever name a client sends, the table only sees names with a leading slash and no empty, dot or dot-dot element |
| Names.SlashCleanIdempotent | server/webdav/file.go:26-31 | a name that came back from the table names the same resource again |
| Names.SlashCleanKeeps | server/webdav/file.go:26-31 | a rooted name without empty, dot or dot-dot elements is left as it is |
| Names.SlashCleanDrops | server/webdav/file.go:26-31 | a slash at either end, a doubled slash and a dot element mean nothing |
| Names.SlashCleanGoesUp | server/webdav/file.go:26-31 | a dot-dot element undoes the element before it, so two names that differ by that are one resource |
| Names.SlashCleanAtRoot | server/webdav/file.go:26-31 | a dot-dot element at the root means nothing |
| HeapOrder.RootIsMin | server/webdav/lock.go:386-415 | the first entry of an ordered heap expires first |
| ByExpiry.ExpiryHeap.Push | server/webdav/lock.go:402-406 | pushing adds the node, keeps the heap ordered and every node's index right |
| ByExpiry.ExpiryHeap.Remove | server/webdav/lock.go:408-415 | removing at any index gives the node that was there, with its index reset, and keeps order, indexes and the other nodes |
| ByExpiry.ExpiryHeap.Fix | server/webdav/lock.go:392-400 | after one key changed, sifting up or down restores order and indexes with the same nodes |
| LockSpec.OverlapIsConflict | server/webdav/lock.go:291-313 | two locks share a resource exactly when one root is the other's, or lies below an infinite one |
| LockSpec.FreeByCoverage | server/webdav/lock.go:291-313 | whether a new lock is free depends on its root and depth only |
| Tokens.FormatUintRoundTrip | server/webdav/lock.go:133-136 | different counter values give different tokens |
| MemLS.LockSystem.CanCreate | server/webdav/lock.go:291-313 | on the reference-counted tree the answer is yes exactly when the new lock shares no resource with any existing lock |
| MemLS.LockSystem.CollectExpiredNodes | server/webdav/lock.go:138-145 | terminates, drops every unheld lock that expires at or before now and no other, and keeps tree, counts, token map and heap consistent |
| MemLS.LockSystem.Confirm | server/webdav/lock.go:147-185 | yields the claim of up to two locks that the table function says, or none; its nodes are held; every node held before stays held, listed and under its token |
| MemLS.LockSystem.Release | server/webdav/lock.go:175-185 | the release callback finds its nodes held, gives back those and no others, and puts them into the expiry heap again |
| MemLS.LockSystem.Create | server/webdav/lock.go:232-250 | new token, or locked, as the table function says; reference counts of all ancestors grow by one; nodes held before stay held |
| MemLS.LockSystem.Refresh | server/webdav/lock.go:252-273 | new duration and expiry, no such lock, or locked when held; nodes held before stay held |
| MemLS.LockSystem.Unlock | server/webdav/lock.go:275-289 | the lock is gone with the names only it needed; no such lock; or locked when held; nodes held before stay held |
| MemLS.LockSystem.Lookup | server/webdav/lock.go:192-210 | the first condition whose token names an unheld lock that covers the resource, or none |
| LockSpec.OperationsKeepHeld | server/webdav/lock.go:138-289 | collecting, refreshing, unlocking and confirming leave every held lock in the table, unchanged |
| LockSpec.CreateKeepsHeld | server/webdav/lock.go:232-250 | so does creating a lock |
| LockSpec.ReleaseKeepsOthersHeld | server/webdav/lock.go:175-185 | a release leaves the locks of every other claim held |
| LockPromises.CreateExactly | server/webdav/lock.go:232-250 | a lock is granted exactly if it shares no resource with any lock that is alive; it is then there under its cleaned root, free, until now plus its duration or for ever, and the other locks that are alive stay, unchanged |
| LockPromises.RefreshExactly | server/webdav/lock.go:252-273 | refreshing succeeds exactly for a token whose lock is alive and free, which then lasts from now for the new duration; locked exactly if it is in use, no such lock exactly if it is not alive; all else stays |
| LockPromises.UnlockExactly | server/webdav/lock.go:275-289 | unlocking succeeds exactly for a token whose lock is alive and free, with the same errors otherwise; that lock is gone then, and every other that is alive is there unchanged |
| LockPromises.ConfirmExactly | server/webdav/lock.go:147-185 | a confirmation puts in use only locks that were alive, free, named by a condition and over one of the resources; nothing else changes but that expired locks go |
| LockPromises.ReleaseExactly | server/webdav/lock.go:175-185 | a release sets its locks free and changes nothing else |
| LockPromises.LockLasts | server/webdav/lock.go:138-145 | over any run, a lock keeps its details and its time until it is refreshed or unlocked or its time is over |
| LockPromises.GrantedExcludes | server/webdav/lock.go:232-250 | over any run, from its granting until then, no lock that shares a resource with it is granted |
| LockPromises.UnlockedIsFree | server/webdav/lock.go:275-313 | after a lock is unlocked, another on the same resources is granted at once |
| LockRuns.ReachableInv | server/webdav/lock.go:232-334 | after any run no two locks overlap, tokens are accounted for, and held locks are exactly those of outstanding confirmations |
| LockRuns.OneLockPerResource | server/webdav/lock.go:232-250 | after any run each resource is covered by at most one lock (sections 6.1 and 7.4 of RFC 4918) |
| LockRuns.ConfirmationsDisjoint | server/webdav/lock.go:38-54 | two outstanding confirmations never cover the same resource |
| LockRuns.ConfirmCovers | server/webdav/lock.go:147-185 | a successful confirmation holds a lock that covers each resource it names |
| LockRuns.FailedConfirmHoldsNothing | server/webdav/lock.go:147-168 | a confirmation fails exactly when a named resource has no usable condition, and then only expired locks are gone |
| LockRuns.HeldUntilReleased | server/webdav/lock.go:38-54 | in the table, what a confirmation holds stays unchanged until its own release, whatever else happens and however late it is |
| LockService.Serve | server/webdav/lock.go:147-289 | any run, releases included, can be performed on the class and ends in the run's state: no release ever finds its node unheld or unlisted, so `unhold` never panics |
| LockService.Service.Release | server/webdav/lock.go:212-230 | a callback called after any other operations finds its nodes held, and all other claims remain usable |
| MapRefinement.StepKeeps | pkg/generic_sync/map.go:28-96 | every step of every goroutine keeps the invariant of read, dirty, expunged entries and what each goroutine has in hand |
| MapRefinement.StepRefines | pkg/generic_sync/map.go:109-206 | the abstract map changes only in the step that completes a write, and exactly as that write says; promotion, misses and expunging never change it |
| MapRefinement.ResultsJustified | pkg/generic_sync/map.go:109-349 | in every run each operation returns what a plain map would have given at some moment between call and return |
| MapRefinement.SeenIsHistory | pkg/generic_sync/map.go:109-349 | the moments that justify results are abstract maps that existed during the call, no others |
| MapRefinement.EntrySeenStaysLive | pkg/generic_sync/map.go:181-206 | over any run, an entry that was in read for a key is expunged or still that key's entry ever after, so a swap into it is not lost |
| MapRefinement.NeverStuck | pkg/generic_sync/map.go:109-349 | an operation that does not wait for the mutex always has a step it can take, a Range without its callback stopping it |
| MapRuns.RangeShowsAll | pkg/generic_sync/map.go:309-349 | in every run a Range has shown its callback exactly the keys it came to while their entries held a value, each once and with that value; it ends early exactly if the callback stopped it, and otherwise no key that was there all the time is missing |
| MapRuns.MissesPromote | pkg/generic_sync/map.go:385-393 | in every run, look-ups that miss promote dirty to read with the first of them that makes them as many as dirty has keys |
| DirectoryMap.DirectoryMap.CalculateDirSize | drivers/local/util.go:171-283 | the explicit stack adds exactly the nodes of plain recursion, returns its total, fails exactly when something below cannot be read, never misses a child node, and terminates with symlink cycles; what total and failure are, `DirSums` says |
| DirectoryMap.DirectoryMap.RecalculateDirSize | drivers/local/util.go:155-169 | a full recomputation is the recursive definition, with cycles cut; the cache is dirty exactly if it failed |
| DirSums.FullSums | drivers/local/util.go:155-283 | in a full recomputation the two sums of a directory add up to the sizes of all files at or below it whose way down meets no directory twice, and the first to those of the files in it |
| DirSums.FilesExist | drivers/local/util.go:155-283 | there is always such a collection of files, so the sums are what every directory has |
| DirSums.TotalIsSum | drivers/local/util.go:171-283 | the total of the walk from any directory is the sum of the sizes of the files it reaches |
| DirSums.ReadableIff | drivers/local/util.go:171-283 | the walk fails exactly if one of the paths it has to look at cannot be read |
| DirectoryMap.DirectoryMap.DeleteDirNode | drivers/local/util.go:338-353 | drops the node and everything recorded below it and nothing else |
| DirectoryMap.DirectoryMap.UpdateDirSize | drivers/local/util.go:285-336 | the directory's node agrees with disk and with its children, and its total is returned; nodes of other existing directories are untouched, and all is if it was right before; only the parent's sum may be out of date now |
| DirectoryMap.DirectoryMap.Refresh | drivers/local/util.go:355-397 | the directory and everything above it are no longer out of date; unless all is recomputed, other existing directories keep their nodes, and nothing changes if the way up was right; trees with symlink cycles included |
| DirectoryMap.DirectoryMap.RefreshAfterChange | drivers/local/util.go:355-397 | after any changes on disk, one refresh makes the cache equal to a full recomputation exactly if every node that became stale is on the way up from the refreshed directory |
| DirectoryMap.DirectoryMap.RefreshAfterMove | drivers/local/driver.go:309-319 | refreshing two directories does so exactly if every node that became stale is on the way up from one of them |
| DirectoryMap.DirectoryMap.RefreshAgain | drivers/local/util.go:355-397 | with nothing changed on disk, a refresh keeps the full recomputation exactly if the refreshed directory does not contain itself |
| DirMoves.MovedExactly | drivers/local/driver.go:309-319 | after a move the new name is the moved entry, the old name is gone, and every other name is what it was |
| DirMoves.MoveStaleIff | drivers/local/driver.go:309-319 | what a move on disk makes stale is on the way up from its two parents exactly if no directory that is not empty takes the place of an empty one and no other recorded way leads to a parent whose listing changed |
| DirMoves.MoveAndRefresh | drivers/local/driver.go:309-319 | so the driver's two refreshes after a move give the full recomputation exactly under that condition |
| DirMoves.OverEmptyIsStale | drivers/local/driver.go:309-319 | the move of a directory with a file over an empty one for which they do not |
| DirMoves.LoopedIsCut | drivers/local/util.go:221-240 | a disk with a recorded directory that contains itself |
| DirExact.ExactIsFull | drivers/local/util.go:155-397 | without cycles, a cache whose nodes all agree with listings and children is the full recomputation, and the other way round |
| DirExact.ExactIsFullIff | drivers/local/util.go:221-240 | with cycles, such a cache is the full recomputation exactly if it has an empty node for every directory that contains itself |
| DirExact.FullIsRightIff | drivers/local/util.go:221-240 | all nodes of a full recomputation agree with the listings exactly when no directory contains itself |
| DirExact.ChangeMakesSuspects | drivers/local/util.go:355-397 | after any changes on disk, a full recomputation of before is out of date only at the nodes that became stale, and in the sums above them |
| ChunkSizes.SizeFits | internal/net/request.go:250-267 | every chunk is positive and at most a part, so the reset of its buffer never rejects it |
| ChunkSizes.SmallOneFirst | internal/net/request.go:250-267 | the first chunk is at least half a part and no larger than any other; it is what does not fill a part if that is enough, else the second makes up for it, and all others are whole parts |
| ChunkSizes.Tiles | internal/net/request.go:162-168 | sending chunks until the end of the range sends exactly the number of parts the reader counts on, contiguous, and they add up to the range |
| DownloadRuns.NextKeeps | internal/net/request.go:217-419 | every step of reader or worker, with partial bodies, retries and chunks given back, keeps the invariant on chunks, buffers and positions |
| DownloadRuns.ReaderGetsTheRange | internal/net/request.go:622-639 | in every run the reader has a prefix of the remote range, all of it when told it ends, and never runs out of buffers before that |
| DownloadRuns.BuffersBounded | internal/net/request.go:217-248 | never more buffers than workers launched, nor more of those than allowed |
| DownloadRuns.ResetsUndisturbed | internal/net/request.go:265-270 | a buffer is only reset for a next chunk while the reader is between buffers and no chunk with bytes left goes to it |
| DownloadProgress.ChannelNeverFull | internal/net/request.go:285-290 | no sender waits for room, whether it issues a chunk or gives one back, if no body breaks after its last byte, or there is one worker, or there are at most workers + 1 parts |
| DownloadProgress.RestsOnlyWithoutWorkers | internal/net/request.go:356-373 | under the same condition an unfinished download rests exactly when the reader waits and all workers have quit |
| DownloadLimits.CanBlockIff | internal/net/request.go:217-291 | some run blocks a sender on the full channel, mutex held, exactly with two or more workers and at least two parts more than workers |
| DownloadLimits.CanStallIff | internal/net/request.go:376-419 | some run without cancellation leaves the reader waiting for ever exactly when a second worker is allowed |
| PipeBuffer.ResetKeepsIff | pkg/buffer/pipe.go:138-152 | a reset keeps the bytes in order exactly if nobody has started to copy between its wait and its lock |
| PipeBuffer.InOrderIffUndisturbed | pkg/buffer/pipe.go:35-152 | throughout a run the bytes are in order exactly if every reset in it takes effect on such a calm buffer |
| PipeBuffer.GuardedIsUndisturbed | pkg/buffer/pipe.go:138-152 | so do all resets of a run in which no read or write starts inside one |
| PipeBuffer.FirstInFirstOut | pkg/buffer/pipe.go:35-136 | with such resets, under any interleaving, what was read is a prefix of what was written, within the limit |
| PipeBuffer.NoLostWakeup | pkg/buffer/pipe.go:35-91 | a reader that waits with bytes there or on a closed pipe can go on at once, and nobody signals a closed channel |
| PipeBuffer.ReadAtOnce | pkg/buffer/pipe.go:35-44 | a read is answered at once exactly if it asks for nothing or all bytes up to the limit were delivered, then with end of file |
| PipeBuffer.ReadFinds | pkg/buffer/pipe.go:46-75 | under the mutex a read ends on a closed pipe, waits exactly if all that was written was delivered, or takes as much as is there and asked for |
| PipeBuffer.WriteAtOnce | pkg/buffer/pipe.go:93-116 | a write is answered at once exactly if it brings nothing, the pipe is closed, or the limit was written; else it takes what the limit leaves room for |
| PipeBuffer.ResetEmpties | pkg/buffer/pipe.go:138-152 | a reset that takes effect leaves an empty buffer with the new limit, any other changes nothing |
| PipeBuffer.ReadDelivers | pkg/buffer/pipe.go:35-91 | a read delivers the next bytes, at least one, and reports the end exactly when it got fewer than asked at the limit |
| PipeBuffer.ReadGivesUp | pkg/buffer/pipe.go:35-91 | a read that delivers nothing found the pipe closed |
| PipeBuffer.WriteAccepts | pkg/buffer/pipe.go:93-136 | a write takes what fits and reports a short write exactly when that is not all |
| PipeBuffer.ReadInsideReset | pkg/buffer/pipe.go:138-152 | the run in which a read inside a reset makes the next one report an unexpected end |
| PipeBuffer.WriteInsideReset | pkg/buffer/pipe.go:138-152 | the run in which a write inside a reset makes the reader get an old byte for a new one |
| BlockStores.BufferStore.ReadAt | internal/hybrid_cache/buffer.go:32-55 | over a list of blocks, exactly the bytes there are at the offset, end of file exactly when fewer than asked; the rest of the buffer is untouched |
| BlockStores.BufferStore.WriteAt | internal/hybrid_cache/buffer.go:57-80 | exactly the bytes there is room for are replaced, all others and the size stay |
| BlockStores.BufferStore.GrowTo | internal/hybrid_cache/buffer.go:82-94 | grows with zeros to the size, never shrinks |
| FileStores.SingleFileStore.ReadAt | internal/hybrid_cache/file.go:11-35 | inside the store's size, the store's bytes, all unless the disk fails |
| FileStores.SingleFileStore.WriteAt | internal/hybrid_cache/file.go:11-35 | inside the store's size, replaces exactly those bytes the disk took |
| FileStores.SingleFileStore.GrowTo | internal/hybrid_cache/file.go:20-29 | grows by zeros when nothing was written past the size, fails exactly when the file cannot be given the size, never shrinks |
| FileStores.MultiFileStore.ReadAt | internal/hybrid_cache/file.go:78-125 | across files, the flat contents at the offset, unwritten bytes as zeros; short only at the end or on a disk error |
| FileStores.MultiFileStore.WriteAt | internal/hybrid_cache/file.go:127-164 | across files, replaces exactly the bytes there is room for or the disk took |
| FileStores.MultiFileStore.GrowTo | internal/hybrid_cache/file.go:65-76 | adds one file of zeros for the missing size, or nothing when none can be created |
| LinearMemory.MappedMemory.Reallocate | internal/mem/mem_linux.go:50-81 | succeeds exactly when committed, or reserved and granted; commits whole pages between the request and the reservation, by an eighth at least; committed bytes keep their values |
| HybridCache.Cache.AllocBlock | internal/hybrid_cache/hybrid_cache.go:27-51 | the block is the next size bytes of the cache and joins the live blocks: in memory exactly if there is memory for it, else in the store, created when first needed; it fails exactly if neither has room, and then nothing changes; everything before keeps its value |
| HybridCache.Cache.RewindBySize | internal/hybrid_cache/hybrid_cache.go:79-92 | truncation of the flat bytes across the memory and store boundary; the live blocks that are still whole stay live |
| HybridCache.KeptExactly | internal/hybrid_cache/hybrid_cache.go:79-92 | those are exactly the live blocks that end inside what is left |
| HybridCache.BlocksApart | internal/hybrid_cache/hybrid_cache.go:27-96 | two live blocks of a cache share no byte |
| HybridCache.Cache.WriteBlock | pkg/buffer/buffer.go:30-39 | a write at an offset of a live block: in memory what fits is taken, in the store all up to the end of the cache; what stays inside the block leaves every other live block alone |
| HybridCache.HarmlessIff | internal/hybrid_cache/hybrid_cache.go:34-38 | a write to a block leaves the other live blocks alone, whatever its bytes, exactly if it reaches into none of them |
| HybridCache.Cache.ReadAt | internal/hybrid_cache/hybrid_cache.go:130-158 | the flat bytes at the offset across the boundary, as many as there are unless the disk fails, and exactly which error when |
| HybridCache.Cache.WriteAt | internal/hybrid_cache/hybrid_cache.go:160-188 | replaces exactly the bytes there is room for across the boundary and no others |
| HybridCache.Cache.CopyFromN | internal/hybrid_cache/hybrid_cache.go:190-209 | appends exactly the next n bytes of the reader, falling over to files midway; when it stops short what was copied is there in order, and the reader had no more, or there was neither memory nor store for the next block, or the disk gave out under it |
| SyncClosers.ClosersRunOnce | pkg/utils/io.go:215-241 | under any interleaving the closers run at most once, and only after every reference was given back; the counter is acquires less releases until then |
| SyncClosers.ClosesAtTheLast | pkg/utils/io.go:215-241 | the step that closes is the one that gives back the last reference, or a close with none |
| SyncClosers.NoAcquireAfterClose | pkg/utils/io.go:202-211 | no acquire succeeds after that, however many are tried |
| SyncClosers.AcquireIffOpen | pkg/utils/io.go:202-211 | in every run an acquire gets a reference exactly while not closed |
| SyncClosers.CallsAccounted | pkg/utils/io.go:203-241 | while open, every acquire so far handed out a reference, and every close has given one back or is under way |
| SyncClosers.ClosersRunIff | pkg/utils/io.go:215-241 | once all calls have returned, the closers have run exactly if there was a close and every reference is given back |
| IfHeader.ScanIfHeader | server/webdav/if.go:28-38 | the loops of the parser terminate on every text and compute the recursive parse |
| IfHeader.ScanToken | server/webdav/if.go:133-174 | the lexer's loop finds the first token and consumes input unless at the end or at a bad character |
| IfHeaderText.SpellingsParse | server/webdav/if.go:40-120 | every text whose tokens spell a header is parsed to it |
| IfHeaderRoundTrip.ParsedIffSpelled | server/webdav/if.go:28-120 | a text is accepted, as that header, exactly when its tokens spell it (section 10.4.2 of RFC 4918) |
| IfHeaderRoundTrip.RoundTrip | server/webdav/if.go:28-174 | any spelling of a header with any blanks between tokens and white space around is read back as that header |
| IfHeaderRoundTrip.PrintThenParse | server/webdav/if.go:28-174 | parsing undoes printing, for every header with the characters tokens can have |
| IfHeaderAccepts.AcceptedIff | server/webdav/if.go:28-174 | a text is accepted, as that header, exactly if it is the header's tokens written out, with blanks at will between them, at least one between words, and white space around |
| TaskGroup.TaskGroupCoordinator.AddTask | internal/task_group/group.go:35-46 | one more pending task and payload of that group, no other group touched |
| TaskGroup.TaskGroupCoordinator.AppendPayload | internal/task_group/group.go:48-55 | one more payload of that group |
| TaskGroup.TaskGroupCoordinator.Done | internal/task_group/group.go:57-82 | one task less; at zero the group is cleared and ends with its payloads, told to the hook if some task succeeded |
| TaskGroup.TasksConserved | internal/task_group/group.go:35-82 | over any calls, tasks added are the effective dones and those pending |
| TaskGroup.PayloadsConserved | internal/task_group/group.go:35-82 | over any calls, every payload handed in is given to exactly one end of its group, in order, or still gathered |
| TaskGroup.EndsExactlyAtZero | internal/task_group/group.go:57-82 | a group ends exactly at the done of its last pending task, and tells the hook exactly if one of its tasks succeeded |
| TaskGroup.ToldIffSucceeded | internal/task_group/group.go:57-82 | over any calls, the hook is told of an end exactly if a task since the end before succeeded |
| Transfer.CompletesOnce | internal/fs/copy_move.go:70-87 | a single transfer, in any order, with any failures: its group ends exactly when every task of the tree has, and once, with all payloads |
| Transfer.GroupFollowsTasks | internal/fs/copy_move.go:165-198 | any number of transfers in one group: it is pending for exactly the live tasks, and each payload was handed on by one of its ends or waits for the next |
| Transfer.EndsWithTheLast | internal/fs/copy_move.go:70-87 | it ends exactly with the last live task, of whatever transfer, with what was handed in since its last end, and tells the hook if a task succeeded since |
| TransferResult.AnyOrderSameResult | internal/fs/copy_move.go:201-313 | all orders of all transfers without failures give the same files: the sources laid over the destination, or for a merge what was there and what was missing |
| TransferResult.EachFileOldOrNew | internal/op/fs.go:688-773 | at any time of any run, whatever failed, each destination file is as it was or as in the end, unless its own upload is under way or failed; beside these there are only old files set aside |
| TransferResult.FailedIsOldIff | internal/op/fs.go:688-694 | where a broken upload leaves its path alone, a failed one keeps the old file exactly if that was not empty |
| TransferResult.NothingLost | internal/op/fs.go:695-771 | a storage that does not overwrite has the content of every old file that was not empty at all times, under one name or the other, until the new file is there |
| TransferClash.ResultIffNoClash | internal/op/fs.go:686-697 | every complete run without failures gives the result above exactly if no file goes aside under a name that is some file's own |
| TransferClash.EmptyFileLost | internal/op/fs.go:688-694 | the run of one upload over an empty file that breaks and leaves neither file |
| TransferResult.MergeKeepsExisting | internal/fs/copy_move.go:221-247 | a merge never changes a file that was there, at any time of any run |
| TransferOutcome.EachPathHolds | internal/fs/copy_move.go:201-324 | complete runs without failures: a path to which a source has a file holds that file, unless a merge found one there or a copy that skips existing files found one of the same size; every other path is as it was |
| TransferOutcome.NamesApartIff | internal/op/fs.go:686-697 | the condition on names, said of the sources and the files there were |
| TransferOutcome.HandsOnOnly | internal/fs/copy_move.go:165-219 | at any time of any run, what was handed to the group names sources of moves that were begun and directories the transfers go to, and nothing else |
| TransferOutcome.HandsOnAll | internal/fs/copy_move.go:165-219 | in complete runs without failures it names all of them |
| ReadAtSeeker.RangeReadReadAtSeeker.ReadAt | internal/stream/stream.go:487-510 | whatever was read before, the bytes of the file at the offset; no error exactly for a full read, end of file exactly at the end unless a reader breaks; a kept reader that can be had serves when none can be opened, and behind a full read its reader is kept |
| ReadAtSeeker.RangeReadReadAtSeeker.GetReaderAtOffset | internal/stream/stream.go:444-485 | a reader that stands exactly at the offset, kept there or skipped forward, a new one exactly if no kept one can be had; none exactly if it cannot be opened either; it is not among those kept any more, and of those only the nearest can be lost |
| ReadAtSeeker.RangeReadReadAtSeeker.InitHeadCache | internal/stream/stream.go:397-403 | the reader at the beginning goes to the head cache and is kept nowhere else |
| ReadAtSeeker.RangeReadReadAtSeeker.Nearest | internal/stream/stream.go:446-460 | the nearest kept reader at or at most 4 MiB before the offset, if any |
| ReadAtSeeker.RangeReadReadAtSeeker.Head | internal/stream/stream.go:370-389 | the head of the file from buffers and reader, and the buffers stay the prefix that was consumed |
| ReadAtSeeker.RangeReadReadAtSeeker.Read | internal/stream/stream.go:529-535 | reads on from the current offset and advances it by what was read |
| ReadAtSeeker.RangeReadReadAtSeeker.Seek | internal/stream/stream.go:512-527 | moves inside the file, else reports and stays |
| EmptyDirectories.FileServer.RemoveEmptyDirectories | server/handles/fsmanage.go:475-542 | the worklist terminates, lists only directories that are there, removes none with a file in or below it, leaves what recursive pruning leaves unless it gives up, and gives up exactly if some directory cannot be listed or some directory without files cannot be removed |
| EmptyDirectories.HoldsFile | server/handles/fsmanage.go:489-540 | a directory that is left when nothing is queued any more has a file in or below it |
| EmptyDirectories.AllPruned | server/handles/fsmanage.go:489-540 | so what is left then is exactly what pruning directories without files leaves |

## Findings

What the proofs turned up about the program; each is a lemma or a contract above.

- **A download can stall.** A chunk that was issued together with a worker makes whoever is
  refused it quit, after giving it back (`internal/net/request.go:464-480`). All workers can
  quit like that while chunks are left, and no later step launches one, so the reader waits
  for ever. `DownloadLimits.CanStallIff`: possible exactly if a second worker is allowed.
- **A sender can block with the mutex held.** A body can break after its last byte; a
  refused retry then gives back a chunk of size zero, and the channel holds one more than
  the worker count allows for. `sendChunkTask` waits for room under `d.mu`
  (`internal/net/request.go:217-291`), which the worker that could make room may need.
  `DownloadLimits.CanBlockIff` says for which downloads, `DownloadLimits.ChannelFull` gives
  the run, and `DownloadProgress.ChannelNeverFull` when there is always room.
- **`PipeBuffer.Reset` has a window** between `ioWg.Wait()` and `rw.Lock()`
  (`pkg/buffer/pipe.go:138-141`). A read or write that starts there is reset underneath:
  `PipeBuffer.ReadInsideReset` and `PipeBuffer.WriteInsideReset` are the runs,
  `PipeBuffer.ResetKeepsIff` and `PipeBuffer.InOrderIffUndisturbed` the exact conditions. The
  downloader never resets a buffer in use (`DownloadRuns.ResetsUndisturbed`).
- **Directories that contain themselves through links** are cut to an empty node by the
  full recomputation, but an incremental refresh starts a fresh ancestor list
  (`drivers/local/util.go:176-178`, `drivers/local/util.go:308`) and gives them a size.
  `DirectoryMap.DirectoryMap.RefreshAgain`: a refresh does so exactly at a directory that
  contains itself; `DirMoves.LoopedIsCut` is a disk that has one.
- **A directory moved over an empty one keeps the empty one's size**: both parents are
  refreshed, but the node of the name that was taken is trusted
  (`drivers/local/driver.go:309-319`, `drivers/local/util.go:305-306`).
  `DirMoves.OverEmptyIsStale` is such a move, `DirMoves.MoveAndRefresh` has the exact
  condition.
- **A failed upload can lose an existing empty file**: it is removed before the upload and
  not restored (`internal/op/fs.go:688-694`, `internal/op/fs.go:760-767`).
  `TransferClash.EmptyFileLost` is the run, `TransferResult.FailedIsOldIff` the condition.
- **Files named like a file set aside** can be lost on storages that do not overwrite: the
  old file goes to its name with `.openlist_to_delete` added, over what is there if the
  storage renames over files, and that name is removed in the end
  (`internal/op/fs.go:686-697`, `internal/op/fs.go:769`). `TransferClash.ResultIffNoClash`:
  the result of transfers is certain exactly if no file has such a name. An upload that
  gives up between the renaming and the sending (`internal/op/fs.go:705-716`) leaves the
  old file under the other name, where `TransferResult.NothingLost` finds it.
- **A write to a block in the backing store does not stop at the block's end**
  (`internal/hybrid_cache/hybrid_cache.go:34-38`) and can run into the blocks after it, while
  one in memory is clipped: `HybridCache.Cache.WriteBlock` and `HybridCache.HarmlessIff`.
- **`HybridCache.ReadAt` and `WriteAt` can be short without an error**: they clip the buffer
  to what there is, so a call that runs over the end reports that only if it starts past the
  end or nothing is in the backing store (`internal/hybrid_cache/hybrid_cache.go:130-188`).
  The contracts of `HybridCache.Cache.ReadAt` and `HybridCache.Cache.WriteAt` say exactly
  when.

## Left out

Of the lock system:

- MemLS.LockSystem.Create: does not model the wrap-around of the 64-bit token counter, which would reuse tokens, nor the saturation of times near the end of the clock's range.
- MemLS.LockSystem.Release: the release closure is a `Claim` value with its nodes; calling one closure twice, at which the source panics, is not modelled.
- Conditions keep only their token, since `Confirm` ignores `Not` and `ETag` (server/webdav/lock.go:192-210).
- The heap operations that `container/heap` provides are written out; that library is not part of this model.

Of the concurrent map: `Count`, `Empty`, `Values`, `ToMap` and `Clear`, which are made of the operations modelled or read one field; counting a miss and promoting are one step under the mutex.

Of the directory sizes:

- DirectoryMap.DirectoryMap.Refresh: sizes are unbounded; nodes are values rather than pointers; each call sees one state of the disk.
- DirectoryMap.DirectoryMap.RefreshAfterChange: the exact condition is for a directory that was recorded and exists, and a refresh that meets no directory that contains itself; without these only that a refresh in time suffices.
- DirMoves.MoveAndRefresh: requires that the move makes no recorded directory contain itself and frees none from it (`DirectoryMap.DirectoryMap.RefreshAfterMove` does not).
- DirMoves.MoveStaleIff: what a move may replace is as `rename` of POSIX says, of which the Go library is not part of this model; a link renamed over a link is not modelled, nor a move across devices, which the driver refuses.
- Recycle-bin removal, which refreshes only the source's parent, and renaming a file, which refreshes nothing; errors for a root that is not set.

Of the downloader:

- Cancellation and everything that follows from it, the limit on retries of a broken body, the count of bytes written, the accounting of `ConcurrencyLimit` (a permit may be refused at any time), and a first request that fails for good.
- DownloadRuns.ReaderGetsTheRange: assumes that the reply to a range is a prefix of that range; a server that sends other bytes is not modelled.
- The downloader's buffers are modelled by what `PipeBuffer` is proved to do rather than by its steps.

Of the block caches:

- HybridCache.Cache.CopyFromN: the largest block is at least one byte, as in the source's configuration.
- LinearMemory.MappedMemory.Reallocate: page rounding is to multiples of the page size rather than by masking bits, and the slice that is returned is the beginning of the buffer; sizes do not overflow 64 bits.
- FileStores.SingleFileStore.ReadAt: outside the store's size it reads what the file holds, as the embedded file does; the cache never asks for that.
- Closing and removing the stores; block contents are values, not slices that share memory with the caller; `ensureCache`'s rewind after a failed copy.

Of the transfers:

- TransferResult.AnyOrderSameResult: transfers have no file in common, a storage renames over a file that is there, the storage is not changed by others meanwhile, and no file has the name of a directory.
- TransferResult.FailedIsOldIff: a broken upload leaves its path alone and files can be renamed and removed; `TransferResult.EachFileOldOrNew` and `TransferResult.NothingLost` assume neither.
- Retries, which begin a task again, and the transfer that runs at once without tasks (internal/fs/copy_move.go:167-188).
- The task manager that queues, storages with their own copy, hooks themselves, progress, path resolution, and the removal of moved sources in the completion hook.

Of the readers:

- ReadAtSeeker.RangeReadReadAtSeeker.ReadAt: one call at a time, although the reader map could be shared between goroutines.
- SyncClosers.ClosersRunOnce: fewer than 2^31 threads, which the 32-bit counter needs; `Add` and `AddIfCloser` are not modelled.

Of the algorithms:

- EmptyDirectories.FileServer.RemoveEmptyDirectories: a queued object is its path, and listings are complete; the request's permission checks are left out.
- IfHeader.ScanIfHeader: characters are Unicode scalar values rather than the bytes of their encoding.
- HTTP handlers, authentication, the database, search, archives, drivers other than the local one and the web interface.
