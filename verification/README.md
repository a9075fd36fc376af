# Montr: verified models of its stateful algorithms

Montr drives digital signage: a TypeScript server stores media and schedules playlists, a Rust
client caches the media and plays it. This project models the algorithms of both halves whose
correctness spans whole runs, and proves what they promise, in Dafny.

| module | what it models |
|---|---|
| `LruSpec`, `LruProperties`, `LruEviction`, `LruRuns`, `Lru` | the media cache: recency list, byte counter, pins, eviction, reservation |
| `CacheNames` | cache file names, printed and read back |
| `QueueSpec`, `PlaylistQueue` | the playlist queue |
| `CoordinatorSpec`, `CoordinatorEffects`, `Coordinator`, `Preload` | the client's message handlers over application state, pins, downloads and snapshots; the choice of items to preload |
| `DownloadSpec`, `Download` | the resumable download and its verified placement |
| `UploadSpec`, `UploadProgress`, `ChunkedUpload` | chunked upload sessions, local disk and object store |
| `UploadJobsSpec`, `UploadJobsRuns`, `UploadJobs` | the upload-completion jobs with deduplication, crashes and restarts |
| `Schedule` | the server's trigger test, simulator and dispatch, and the client's offline evaluator |
| `Telemetry` | alert detection over a window of samples |
| `Semaphore` | the async semaphore, one event-loop step at a time |
| `Subtitles` | subtitle choice and sid numbering |
| `LogRotation`, `Reconnect` | log rotation; reconnection backoff |
| `Octets`, `Options`, `StableSort`, `Text` | shared notions |

Where the source updates an object in place there is a class whose methods are proved against a
specification on values: the new state is a function of the old one. What the source promises is
then proved about that function, over every run of operations where runs matter. The failures that
the source's error paths handle (a disk write, a deletion, a rename, a request, a broken stream, a
refusing store, a crash) are arguments of the step, so the run theorems hold whatever the
environment does; what is not an argument is named under "Left out".

`dafny verify dfyconfig.toml` checks the project.

## What the code does differently from what its comments say

The model follows the code. Each difference has a lemma that shows it and, where that makes sense,
the exact condition under which the comment is right.

- The telemetry service takes the rows it reads for the newest of the last ten minutes; the query
  returns the oldest seven. The processor test detects what it should if and only if six or seven
  samples fall into the ten minutes, the temperature and player tests if and only if two to seven do
  (`Telemetry.CpuDetectsIff`, `TempAndMpvDetectIff`); at the default of one a minute what fires is
  `Telemetry.CpuAlertLooksBack`.
- Disk alerts are called rising edges; they repeat for up to six samples and never fire for a run
  that starts the history (`Telemetry.DiskAlertsRepeat`, `DiskAlertsLookBack`).
- A download is placed by renaming a partial file beside the cache entry. When the sanitized file
  name ends in `.tmp` the two are one file, and a failed or broken download spoils or removes the
  entry (`DownloadSpec.EntryIsSafeIff`, `TmpNameLosesEntry`, `CoordinatorSpec.OwnEntryIsKeptIff`).
- The cache's reservation says it keeps a headroom on the disk; the headroom cancels out of its last
  comparison (`LruProperties.RoomIff`).
- The cache's byte counter drifts when `put` displaces an entry from a full map and when the
  directory holds two files of one id (`LruRuns.RunKeepsBooks`, `LruProperties.AddExactIff`,
  `LoadIsExactIff`). It never reports too little, so the tracked bytes keep the quota all the same; the
  counter itself does exactly under `LruProperties.CounterFitsIff`.
- A chunk index that is not a number passes the range check (`server/src/api/routes/media.routes.ts`
  parses it without a test), and the size test counts it (`UploadSpec.SizeTestMeansRangeIff`).
- A broken second attempt at a received chunk leaves it counted (`UploadSpec.BrokenRetryBlocks`), and
  one whose cleanup fails can put its remains into the file (`UploadSpec.LeftoverDecides`).
- Recovery of upload jobs after a crash deletes the file of a media row that its own job had already
  inserted (`UploadJobsRuns.RestartIsSafeIff`, `OwnDuplicate`).
- The schedule simulator looks neither at `enabled` nor at the end time, and accepts start times that
  never trigger (`Schedule.SimulationAgainstTriggers`, `OnlyPaddedStartsTrigger`).
- The dispatch dedupe key has no date, so a daily schedule goes out once per process
  (`Schedule.DispatchedOnlyOnce`).
- The client's evaluator says it mirrors the server; a blank entry in the day list is Sunday on the
  server and nothing on the client (`Schedule.DaysAgreeIff`, `ClientMirrorsServerIff`).
- A playlist message that changes only the loop flag is dropped (`CoordinatorSpec.LoopChangeIsDropped`),
  a stop keeps the pins (`StopKeepsPins`), and a resume after an interrupt without a playlist drops an
  older stack entry (`InterruptResumeStackIff`).
- A server that answers a Range request with the whole file spoils the partial file
  (`DownloadSpec.AppendedAnswerIff`); the checksum catches it when there is one.
- The semaphore can admit more holders than its maximum (`Semaphore.BargingOvershoots`); exactly when
  is `OvershootsIffBarges`.
- The first reconnection delay is not cut off at the cap, and jitter can take a delay above it
  (`Reconnect.MonotoneIff`, `JitterRespectsCapIff`).

## Model

| member | source | states |
|---|---|---|
| LruSpec.CutIsShortest | client/src/cache/lru.rs:283-350 | the eviction cut is the shortest least-recent-first stretch whose unpinned bytes bring the size to the target, or the whole list when none does |
| LruSpec.EvictsShortestPrefix | client/src/cache/lru.rs:283-350 | the restarting loop of `evict_until` removes exactly the unpinned entries of that stretch; the survivors are every pinned entry passed over and the untouched rest, in their order, and the counter falls by exactly the bytes removed |
| LruSpec.EvictFiles | client/src/cache/lru.rs:283-350 | only files of unpinned tracked entries disappear, every evicted entry's file does, and the loop fails only on a file that cannot be deleted |
| LruSpec.RemoveKeepsValid | client/src/cache/lru.rs:223-244 | `remove` keeps the bookkeeping and the distance between counter and tracked bytes |
| LruProperties.SurvivorsKeepOrder | client/src/cache/lru.rs:283-350 | what eviction keeps is a subsequence of the recency order |
| LruProperties.EvictKeeps | client/src/cache/lru.rs:283-350 | eviction keeps every pinned entry, the pinned bytes, the pins and the counter's drift, adds nothing, and on success ends at the target or with only pinned entries |
| LruProperties.EvictedFits | client/src/cache/lru.rs:283-350 | after a successful eviction the tracked bytes are at most the target, or equal the pinned bytes (only pinned entries remain); with an exact counter so is the counter |
| LruProperties.EnsureRoomOnlyEvicts | client/src/cache/lru.rs:440-497 | whatever `ensure_room_for` returns, it only evicts unpinned entries |
| LruProperties.RoomOnSuccess | client/src/cache/lru.rs:440-497 | on every success the tracked bytes plus the incoming ones are within the quota, even with a drifted counter; with an exact counter the counter is too; the last disk reading covers the incoming bytes |
| LruProperties.CounterFitsIff | client/src/cache/lru.rs:440-497 | on every success the counter plus the incoming bytes is within the quota if and only if pinned bytes, drift and incoming bytes fit it together |
| LruProperties.RoomIffPinnedFit | client/src/cache/lru.rs:440-497 | with deletable files and no disk shortage, success if and only if pinned bytes plus incoming bytes are within the quota; a refusal for that reason changes nothing |
| LruProperties.RoomIff | client/src/cache/lru.rs:471-494 | with deletable files, whatever the disk reports: success if and only if pinned plus incoming bytes fit the quota and, on a shortage, the last reading covers the incoming bytes; a reading without any headroom can succeed |
| LruEviction.ReservationEvictsLeast | client/src/cache/lru.rs:468-469 | with no shortage, a granted reservation removes exactly the unpinned entries of the shortest least-recent-first stretch that brings counter and incoming bytes within the quota, with their files; nothing changes when they fit already |
| LruEviction.ShortageEvictsLeast | client/src/cache/lru.rs:473-482 | on a shortage it goes on to remove, of what is left, exactly the shortest stretch that frees the gap to the headroom |
| LruProperties.DriftWitness | client/src/cache/lru.rs:440-497 | a state in which a drifted counter stays above the quota although room was granted (the exact condition is `CounterFitsIff`) |
| LruProperties.TrackKeeps | client/src/cache/lru.rs:191-208 | tracking an entry drifts the counter by exactly the size of the entry that a full map displaces, and makes the new entry the most recent |
| LruProperties.AddExactIff | client/src/cache/lru.rs:177-220 | `add` keeps an exact counter exact if and only if it displaces no bytes from a full map |
| LruProperties.AddKeeps | client/src/cache/lru.rs:177-220 | `add`, eviction included, keeps the bookkeeping and the pins, drifts only by what it displaces, and tracks nothing but what was tracked and the new entry |
| LruProperties.AddWithinQuota | client/src/cache/lru.rs:177-276 | after a successful `add` the counter is within the quota or every tracked entry is pinned, and the new entry is gone only if no unpinned entry is left |
| LruEviction.AddTracksAndEvictsLeast | client/src/cache/lru.rs:177-276 | `add` without the file changes nothing and fails; else the entry of the file's size is tracked, and over the quota exactly the least that reaches the low mark is evicted |
| LruEviction.TrackMakesRecent | client/src/cache/lru.rs:191-208 | the added entry is the most recent, the others keep their order, and only a new id on a full map costs the oldest |
| LruEviction.QuotaEvictsLeast | client/src/cache/lru.rs:259-276 | `evict_if_needed` changes nothing within the quota, else evicts exactly the least that reaches the low mark |
| LruEviction.AccessMakesRecent | client/src/cache/lru.rs:161-174 | an access stamps the entry, moves it to the most recent end and leaves the others in order |
| LruEviction.OlderGoesFirst | client/src/cache/lru.rs:296-302 | of two unpinned entries the more recent one is evicted only after the other |
| LruEviction.AccessedIsEvictedLast | client/src/cache/lru.rs:161-174 | what was accessed last stays while any other unpinned entry does |
| LruEviction.RemoveIsExact | client/src/cache/lru.rs:223-244 | `remove` takes the entry, its bytes and its file; it fails exactly on a file that cannot be deleted, which stays |
| LruEviction.StartupIsOldestFirst | client/src/cache/lru.rs:130-137 | start-up takes the scanned files least recently accessed first |
| LruEviction.LoadsInOrder | client/src/cache/lru.rs:133-137 | and tracks them in that order when they are of distinct ids and fit the map |
| LruEviction.ScanMeaning | client/src/cache/lru.rs:93-128 | the scan finds exactly the files whose name starts with an id, with size and access time |
| LruProperties.LoadKeeps | client/src/cache/lru.rs:130-137 | loading scanned files drifts the counter by exactly the displaced and repeated entries |
| LruProperties.LoadOneFilePerId | client/src/cache/lru.rs:130-137 | with one file per id and a directory within the capacity, everything is tracked in order and nothing drifts |
| LruProperties.LoadIsExactIff | client/src/cache/lru.rs:130-137 | started from nothing over non-empty files, the counter is exact if and only if the directory holds one file per id and no more files than the map |
| LruProperties.DuplicateFilesDrift | client/src/cache/lru.rs:130-137 | two files of one id: both counted, one tracked |
| LruRuns.RunKeepsBooks | client/src/cache/lru.rs:161-497 | over every sequence of operations the counter is never below the tracked bytes and exceeds them by exactly what full-map `add`s displaced; so it stays exact if and only if they displaced nothing |
| LruRuns.PinnedFilesStay | client/src/cache/lru.rs:296-302 | no operation but an explicit `remove` deletes a file that carries a pinned media id |
| LruRuns.ApplyKeepsPins | client/src/cache/lru.rs:354-372 | only pin, unpin and replace change the pin set |
| LruRuns.ScanWellNamed | client/src/cache/lru.rs:88-125 | the startup scan tracks each file under the id its name carries |
| LruRuns.InitKeeps | client/src/cache/lru.rs:78-158 | the startup scan keeps the books, the naming and the pins, whatever the directory holds |
| Lru.LruCacheManager.Init | client/src/cache/lru.rs:78-158 | the scanned files are tracked oldest access first and evicted if over the quota; the drift is exactly that of the load; entries carry the id of their file name |
| Lru.LruCacheManager.TrackAll | client/src/cache/lru.rs:133-137 | the loop loads the scanned entries as specified |
| Lru.LruCacheManager.ScanDirectory | client/src/cache/lru.rs:93-128 | the scan finds exactly the files whose name starts with an id, in directory order |
| Lru.LruCacheManager.Add | client/src/cache/lru.rs:177-220 | the method's new state and result are the specification's, under a well-formed map |
| Lru.LruCacheManager.EvictUntil | client/src/cache/lru.rs:283-350 | the loop computes the specified eviction and never reaches its safety limit |
| Lru.LruCacheManager.EnsureRoomFor | client/src/cache/lru.rs:440-497 | the method's new state and result are the specification's; on success tracked plus incoming bytes fit the quota |
| Lru.LruCacheManager.EvictForHeadroom | client/src/cache/lru.rs:471-494 | the second constraint: evict the gap to the headroom, then read the disk again, as specified |
| Lru.LruCacheManager.SumPinned | client/src/cache/lru.rs:382-389 | the walk over the pin set adds up exactly the sizes of the tracked pinned entries |
| Lru.LruCacheManager.CheckDiskSpace | client/src/cache/lru.rs:409-435 | the periodic disk check evicts as specified |
| LruEviction.DiskCheckEvictsLeast | client/src/cache/lru.rs:409-428 | with a gigabyte free or no reading the check changes nothing, else it evicts exactly the least that reaches the tight mark |
| Lru.OneMorePin | client/src/cache/lru.rs:382-389 | pinning one more id raises the pinned bytes by its tracked size |
| CacheNames.CacheNameRoundTrip | client/src/cache/lru.rs:99-101 | the id read back from a cache name is the id printed into it, for every id and every server-supplied file name |
| CacheNames.CacheNamesAreDisjoint | client/src/cache/manager.rs:164-167 | distinct media ids never share a cache name |
| CacheNames.PartialIsFinalIff | client/src/cache/manager.rs:238-239 | a cache name is its own partial name if and only if the sanitized file name ends in `.tmp` |
| CacheNames.TempNameCarriesId | client/src/cache/manager.rs:238-239 | the directory scan reads the media id from a partial name too |
| CacheNames.TempNamesAreDisjoint | client/src/cache/manager.rs:238-239 | the partial name of one media id is neither a cache name nor a partial name of another |
| CacheNames.SanitizedIsSafe | client/src/cache/manager.rs:33-62 | the sanitized part is not empty, `.` or `..`, holds no separator and no control character, and is the longest whole-character prefix within 200 bytes |
| CacheNames.GoodNameIsKept | client/src/cache/manager.rs:33-62 | a clean name without outer white space within the limit is kept as it is, and any directory part before it is dropped |
| CacheNames.KeptIffGood | client/src/cache/manager.rs:33-62 | those are exactly the names that sanitizing keeps |
| CacheNames.CutIsLongest | client/src/cache/manager.rs:50-61 | the cut is the longest prefix within the limit |
| CacheNames.LongestPrefixIsUnique | client/src/cache/manager.rs:50-61 | there is only one such prefix |
| CacheNames.SanitizeFilename | client/src/cache/manager.rs:33-62 | the backward search on byte offsets computes that name |
| QueueSpec.LoopingNextLands | client/src/playback/queue.rs:90-118 | looping, k calls of `next` from index i land on (i + k) mod n |
| QueueSpec.PreviousUndoesNextIff | client/src/playback/queue.rs:120-140 | `previous` undoes `next` exactly from a set index with looping, a successor, or a single item |
| QueueSpec.NextUndoesPreviousIff | client/src/playback/queue.rs:90-140 | `next` undoes `previous` exactly from a set index with looping or a predecessor, or before a single item that does not loop |
| QueueSpec.PreviousStopsAtFirst | client/src/playback/queue.rs:120-140 | not looping, k calls of `previous` go back k places and stop at the first item |
| QueueSpec.PreviousReturnsItem | client/src/playback/queue.rs:120-140 | `previous` returns the item it lands on, the first one when no index is set |
| QueueSpec.NextRotates | client/src/playback/queue.rs:90-118 | not looping, k calls of `next` rotate the n + 1 states by k |
| QueueSpec.RemainingCounts | client/src/playback/queue.rs:206-212 | not looping, `remaining_count` is how many items `next` still returns before it returns nothing, and they are the rest of the list in order |
| QueueSpec.UpdatePlaysAll | client/src/playback/queue.rs:180-184 | after `update_items`, n calls return every item once and in order, looping or not |
| PlaylistQueue.PlaylistQueue.Next | client/src/playback/queue.rs:90-118 | new index and returned item as specified; the index stays in range |
| PlaylistQueue.PlaylistQueue.Previous | client/src/playback/queue.rs:120-140 | new index and returned item as specified; the index stays in range |
| PlaylistQueue.PlaylistQueue.JumpTo | client/src/playback/queue.rs:143-156 | jumps if and only if the index is in range, else changes nothing |
| PlaylistQueue.PlaylistQueue.UpdateItems | client/src/playback/queue.rs:180-184 | replaces the items and the id and forgets the index |
| CoordinatorSpec.StepKeepsQueueSafe | client/src/state/coordinator.rs:300-426 | one message, whatever it is: the pins still match the queue and no file of the playlist it leaves queued is evicted or overwritten away, partial downloads aside |
| CoordinatorSpec.RunKeepsQueueSafe | client/src/state/coordinator.rs:300-985 | every run of assignments, updates, interrupts, resumes, offline switches and restores, with evictions and downloads between: the queue stays pinned and a cached file of an item that stays queued is never lost, partial downloads aside |
| CoordinatorSpec.OwnEntryIsKeptIff | client/src/cache/manager.rs:238-294 | leaving partial downloads out is exact: an item's own download never costs it its cache entry if and only if the sanitized name does not end in `.tmp` |
| CoordinatorSpec.StartupEstablishesInv | client/src/cache/lru.rs:78-158 | the started process satisfies the invariant of these runs, whatever its directory and snapshots hold |
| CoordinatorSpec.ActivateKeeps | client/src/cache/manager.rs:139-146 | bringing a playlist in leaves it queued, pinned and its cached files in place, whatever its downloads evict |
| CoordinatorSpec.InterruptResumeStackIff | client/src/state/app_state.rs:372-402 | an interrupt followed by a resume restores the interrupt stack if and only if a playlist was assigned or the stack was empty |
| CoordinatorSpec.AssignedSurvivesRestart | client/src/state/coordinator.rs:909-985 | an assigned and written playlist comes back after an immediate restart with its items and loop flag, pinned |
| CoordinatorSpec.SavedIsLastWritten | client/src/state/coordinator.rs:909-938 | after any run the snapshot is the playlist last assigned, updated or resumed whose write succeeded |
| CoordinatorSpec.RestartRestoresLastWritten | client/src/state/coordinator.rs:944-985 | after any run, with interrupts and offline switches in it, a restart brings that playlist back, pinned |
| CoordinatorSpec.LoopChangeIsDropped | client/src/state/coordinator.rs:850-862 | a message takes its loop flag over if and only if the duplicate test lets it through or the flag was already set so |
| CoordinatorEffects.AssignmentShows | client/src/state/coordinator.rs:302-342 | after an assignment its id, length, media ids and positions are shown; one that is shown already changes nothing, any other is queued as it came and the interrupt stack is emptied |
| CoordinatorEffects.UpdateShows | client/src/state/coordinator.rs:344-378 | the same of an update, which leaves the interrupt stack alone |
| CoordinatorEffects.InterruptQueues | client/src/state/coordinator.rs:379-401 | an interrupt queues and pins its playlist, stacks what was shown with its position, and writes nothing |
| CoordinatorEffects.ResumeQueues | client/src/state/coordinator.rs:402-426 | a resume takes the top off the stack and queues and pins the playlist it names, or empties the queue |
| CoordinatorEffects.SwitchQueuesIff | client/src/state/coordinator.rs:579-632 | an offline switch queues the stored playlist exactly when there is one to read and another is shown |
| CoordinatorEffects.RestoreQueuesIff | client/src/state/coordinator.rs:944-985 | an offline restore queues the snapshot exactly when there is one to read and nothing is queued |
| CoordinatorEffects.FetchSucceedsIff | client/src/cache/manager.rs:216-294 | a download in a batch succeeds exactly when the entry is valid, or there is room and a verified file came, which is then the entry |
| CoordinatorEffects.PlaybackStartsIff | client/src/state/coordinator.rs:865-902 | a playlist that is brought in plays from its first item exactly when that item is cached or some item is downloaded |
| CoordinatorEffects.UpdateRestartsIff | client/src/state/coordinator.rs:354-377 | an update restarts playback exactly when what plays is no longer listed and some item is there |
| CoordinatorEffects.PositionAndMediaAgree | client/src/state/app_state.rs:273-330 | skipping, stepping back and reloading move position and current media together |
| CoordinatorEffects.PlaylistSavesVersion | client/src/state/coordinator.rs:909-938 | an assignment or update writes its own per-playlist snapshot exactly when it takes effect and the write succeeds |
| CoordinatorEffects.OthersSaveVersion | client/src/state/coordinator.rs:909-938 | of the other messages only a resume that names a playlist writes one |
| CoordinatorSpec.StopKeepsPins | client/src/state/coordinator.rs:402-426 | a resume without a playlist empties the queue and leaves the pins of the last one |
| Coordinator.StateCoordinator.Handle | client/src/state/coordinator.rs:283-297 | handling a message makes exactly the specified step over application state, cache and snapshots |
| Coordinator.StateCoordinator.HandleServerMessage | client/src/state/coordinator.rs:300-426 | so do the handlers of the server's messages |
| Coordinator.StateCoordinator.DownloadItem | client/src/cache/manager.rs:216-294 | make room, then the partial file becomes the entry or what is left of it stays or goes |
| Coordinator.StateCoordinator.HandleUpdated | client/src/state/coordinator.rs:344-378 | an update queues, writes, pins and downloads, and restarts playback as specified |
| Coordinator.StateCoordinator.IsPlaylistUnchanged | client/src/state/coordinator.rs:850-862 | the duplicate test: same id, same length, same media ids and positions |
| Coordinator.StateCoordinator.BringIn | client/src/state/coordinator.rs:579-632 | queue, then pin, then download and start, as specified |
| Coordinator.StateCoordinator.Persist | client/src/state/coordinator.rs:909-938 | both snapshot slots, each write possibly failing |
| Preload.SelectPreloadItems | client/src/state/coordinator.rs:1261-1284 | the method picks a front run within the count and the budget that cannot be extended |
| Preload.LongestRunIsLongest | client/src/state/coordinator.rs:1261-1284 | no longer front of the list keeps the count and the budget |
| Coordinator.AppState.UpdatePlaylist | client/src/state/app_state.rs:237-257 | new playlist id, items, loop flag, no index |
| Coordinator.AppState.NextItem | client/src/state/app_state.rs:273-289 | queue and current media move together |
| Coordinator.AppState.ClearPlaylist | client/src/state/app_state.rs:260-270 | empties the playlist and the current media, keeps the loop flag and the stack |
| Coordinator.AppState.PushInterrupt | client/src/state/app_state.rs:372-388 | stacks the current playlist, or nothing without one |
| Coordinator.AppState.PopInterrupt | client/src/state/app_state.rs:391-402 | takes the top of the stack, if any |
| UploadSpec.SlicesRebuild | server/src/services/chunked-upload.service.ts:58-61 | cutting into slices and joining ceil(size / chunk size) of them gives the data back |
| UploadSpec.SizeTestMeansRangeIff | server/src/services/chunked-upload.service.ts:113-120 | the size test and the range check force the received indices to be exactly 0..n-1 if and only if none of them is not a number |
| UploadSpec.RunHolds | server/src/services/chunked-upload.service.ts:106-206 | every run of init, chunk, abort and complete calls keeps each stored chunk and part of a session equal to its slice |
| UploadSpec.CompletionRebuilds | server/src/services/chunked-upload.service.ts:206-247 | a successful completion stores exactly the data and reports its size |
| UploadSpec.UploadRebuildsData | server/src/services/chunked-upload.service.ts:52-247 | from `initUpload` on, slices in any order, with repeats, broken attempts and other uploads between: when the completion succeeds the stored object is exactly the data |
| UploadProgress.ChunkIsReceived | server/src/services/chunked-upload.service.ts:106-197 | a chunk call answers Ok exactly when session, range, backend and transfer allow; then the chunk is stored, its index is received with its size, all earlier ones still are, and the reply is the new count |
| UploadProgress.AllSlicesComplete | server/src/services/chunked-upload.service.ts:52-247 | from `initUpload` on, every slice handed in, in any order and any number of times, on either backend, with other uploads between, makes a completion that the store or disk takes Done with the data |
| UploadProgress.OthersUntouched | server/src/services/chunked-upload.service.ts:47-276 | every call leaves the sessions, chunk files and parts of other uploads alone |
| UploadProgress.ObjectsUntouched | server/src/services/chunked-upload.service.ts:206-247 | objects change only by the one a completion reports done |
| UploadProgress.EndedUploadIsForgotten | server/src/services/chunked-upload.service.ts:229-276 | a completed or aborted upload leaves no session, chunk file or part |
| UploadProgress.StreamChangesOneFile | server/src/services/chunked-upload.service.ts:128-139 | a streamed call changes at most the file of its own chunk |
| UploadSpec.CompletionSucceedsIff | server/src/services/chunked-upload.service.ts:206-229 | on the store a completion succeeds if and only if as many chunks as needed, and at least one, were received and the store takes it; on local disk every chunk file must be there and the joined file be written |
| UploadSpec.FailedCompletionsKeep | server/src/services/chunked-upload.service.ts:216-231 | after any number of completions that the store or the disk fails, session, chunks and parts are as before, and a later one answers and stores what the first would have |
| UploadSpec.BrokenRetryBlocks | server/src/services/chunked-upload.service.ts:130-139 | a broken second attempt at a received chunk leaves it counted without its file, so the completion passes the size test and fails |
| UploadSpec.LeftoverDecides | server/src/services/chunked-upload.service.ts:130-139 | when the cleanup of a broken second attempt fails too, the completion goes through, with the data if and only if the leftover is the slice |
| ChunkedUpload.ChunkedUploadService.InitUpload | server/src/services/chunked-upload.service.ts:52-102 | a new session with ceil(size / chunk size) chunks to come |
| ChunkedUpload.ChunkedUploadService.StreamChunkFromRequest | server/src/services/chunked-upload.service.ts:106-150 | new session, chunk file and reply as specified, broken streams included |
| ChunkedUpload.ChunkedUploadService.UploadChunk | server/src/services/chunked-upload.service.ts:155-197 | new session, chunk file or part, and reply as specified |
| ChunkedUpload.ChunkedUploadService.CompleteUpload | server/src/services/chunked-upload.service.ts:206-247 | the size test, the finalisation, which the store or the disk may fail, and the end of the session as specified |
| ChunkedUpload.ChunkedUploadService.FinalizeLocal | server/src/services/chunked-upload.service.ts:382-422 | the chunk files joined in index order, or a failure at the first missing one or of the write |
| ChunkedUpload.ChunkedUploadService.FinalizeSpaces | server/src/services/chunked-upload.service.ts:356-380 | from a full session, whatever the order of the map, the part list is exactly 1..n ascending |
| ChunkedUpload.SortedPartsAreList | server/src/services/chunked-upload.service.ts:360-368 | sorting the parts by number gives the list 1..n whatever order they were found in |
| UploadJobsSpec.NextQueued | server/src/database/adapters/sql-base.adapter.ts:420-441 | the job claimed is queued and the oldest one, ties to the lower id |
| UploadJobsSpec.TerminalStatesNeverChange | server/src/services/upload-completion-queue.service.ts:76-94 | over any run, crashes and restarts included, a job that is done, duplicate or failed stays as it is |
| UploadJobsSpec.ProcessKeeps | server/src/services/media.service.ts:295-391 | processing a job deletes no object a media row uses and adds only a row with a new checksum, whatever fails in it |
| UploadJobsSpec.CreatedIff | server/src/services/media.service.ts:306-386 | processing creates a row, of the job's key and checksum, exactly when the folder is not gone, the object is read, no row has its checksum and the insertion succeeds; it reports it exactly when the rest succeeds too |
| UploadJobsSpec.FoundIff | server/src/services/media.service.ts:336-341 | it reports a duplicate exactly when the object is read and a row has its checksum, and names such a row; everything else is an exception |
| UploadJobsSpec.DeletedIff | server/src/services/media.service.ts:306-341 | it deletes the job's object only for a gone folder or a duplicate, and no other object and no job changes |
| UploadJobsSpec.ClaimTakesOldest | server/src/database/adapters/sql-base.adapter.ts:420-441 | a claim marks exactly the oldest queued job running, if there is one |
| UploadJobsSpec.StartRequeues | server/src/database/adapters/sql-base.adapter.ts:464-469 | a start puts exactly the running jobs back into the queue |
| UploadJobsSpec.MarkSettles | server/src/services/upload-completion-queue.service.ts:81-92 | a job ends done with the created row, duplicate with the found one, or failed, exactly as processing came out and the write went |
| UploadJobsSpec.StepKeeps | server/src/services/upload-completion-queue.service.ts:35-94 | every step keeps the invariant, a requeueing restart when no running job owns a media row |
| UploadJobsRuns.SafeRunsKeep | server/src/services/upload-completion-queue.service.ts:35-94 | so does every run whose restarts are safe |
| UploadJobsRuns.CleanRunsFromScratch | server/src/services/media.service.ts:337-373 | in every run in which, between the insertion of a row and its job's last state, the process does not crash and the write of `failed` does not fail as well: every media row's object is stored with the row's checksum, no two rows share a checksum, and a duplicate job names another upload's row with its checksum |
| UploadJobsRuns.CleanRunsKeep | server/src/services/upload-completion-queue.service.ts:81-92 | the same from any well-formed state, and a running job that owns a row is the job at hand |
| UploadJobsRuns.CrashIsSafeIff | server/src/services/upload-completion-queue.service.ts:35-53 | a crash leaves the next restart safe if and only if it falls outside that window |
| UploadJobsRuns.RestartIsSafeIff | server/src/services/upload-completion-queue.service.ts:35-53 | a requeueing restart keeps all media rows intact, whatever the process then does, if and only if no job left running owns a media row |
| UploadJobsRuns.UnsafeRestartLosesFile | server/src/services/media.service.ts:337-341 | from every other state some continuation finds the job's own row as its duplicate and deletes the row's object |
| UploadJobsRuns.OwnDuplicate | server/src/services/media.service.ts:337-341 | one upload, one crash and one restart: the job ends as the duplicate of its own row, whose object is gone |
| UploadJobsRuns.FinishedUploadsAreKept | server/src/services/media.service.ts:329-386 | a done or duplicate job has an object of its checksum in storage, which is its upload when the checksum has no collision there |
| UploadJobsRuns.SmoothUploadIsSettled | server/src/services/upload-completion-queue.service.ts:76-94 | the oldest upload, into any standing folder or none, when nothing fails: new content ends done with its own new row and its object kept, known content ends duplicate of such a row and adds none |
| UploadJobsRuns.EnqueuedIsNext | server/src/database/adapters/sql-base.adapter.ts:386-418 | an upload that comes in while nothing waits is the next one, its object in storage |
| UploadJobsRuns.ReachesJob | server/src/services/upload-completion-queue.service.ts:76-94 | the worker gets to any queued job |
| UploadJobs.UploadCompletionQueue.Start | server/src/services/upload-completion-queue.service.ts:35-53 | starting requeues every running job, unless that write fails or the service is already running |
| UploadJobs.UploadCompletionQueue.ProcessUploadCompletionJob | server/src/services/media.service.ts:295-391 | rows, objects and outcome as specified for every answer of the environment |
| UploadJobs.UploadCompletionQueue.MarkOutcome | server/src/services/upload-completion-queue.service.ts:81-92 | an outcome that cannot be written is written as failed, and if that fails too the job stays running |
| UploadJobs.UploadCompletionQueue.RunOne | server/src/services/upload-completion-queue.service.ts:76-94 | one round is the run claim, process, mark (and mark failed); it claims if and only if a job is queued, and keeps the invariant |
| Schedule.ClockOrder | server/src/services/schedule.service.ts:209-211 | on zero-padded times string order is numeric order and the print is injective |
| Schedule.DaysAgreeIff | client/src/state/schedule_eval.rs:90-100 | the two day filters agree except that the server reads a blank entry as Sunday |
| Schedule.PrintedDaysAllow | server/src/services/schedule.service.ts:205-207 | a printed list of day numbers allows exactly its days, on server and client |
| Schedule.WeekdayAdvances | server/src/services/schedule.service.ts:205-207 | the weekday is Thursday on day zero, constant within a day and advances by one a day |
| Schedule.FindTriggeringSelects | server/src/services/schedule.service.ts:221-228 | the trigger filter selects exactly the schedules that trigger now |
| Schedule.SimulateHhmm | server/src/services/schedule.service.ts:436-450 | the stepping loop returns, strictly ascending, exactly the daily start moments on allowed days within the range |
| Schedule.SimulateSchedule | server/src/services/schedule.service.ts:421-434 | those of them at which the conditions pass; nothing for event-triggered schedules |
| Schedule.DailyIsMinute | server/src/services/schedule.service.ts:436-450 | the daily moments of a start are the whole minutes at which the clock shows it |
| Schedule.SimulationAgainstTriggers | server/src/services/schedule.service.ts:190-228 | the simulator misses no trigger in any range, and what it predicts triggers if and only if the schedule is enabled and has no end or a later end than its start |
| Schedule.OnlyPaddedStartsTrigger | server/src/services/schedule.service.ts:221-228 | only zero-padded starts ever trigger; `9:00` is simulated at nine and never triggers |
| Schedule.CronDecides | server/src/services/schedule.service.ts:201-203 | with a cron expression a schedule triggers exactly when enabled, not event-triggered, conditions pass and the cron library says so |
| Schedule.CronDecidesOnClient | client/src/state/schedule_eval.rs:77-91 | on the client also on an allowed day only |
| Schedule.ScheduleService.Evaluate | server/src/services/schedule.service.ts:232-242 | what goes on to conflict resolution, and the new dedupe keys |
| Schedule.TickSelects | server/src/services/schedule.service.ts:238-242 | a tick lets through exactly the triggering schedules that did not last go out under its minute key, records exactly the triggering ones, and leaves the other ids' keys alone |
| Schedule.DispatchedOnlyOnce | server/src/services/schedule.service.ts:236-242 | in one process a clock-time schedule, among any others with distinct ids that come and go, is dispatched at the first tick that triggers it and never again, over any number of days |
| Schedule.ClientMirrorsServerIff | client/src/state/schedule_eval.rs:51-117 | for any strings and the same answer to the conditions, the client is active if and only if the server is, the times parse, and the day is not allowed through a blank entry |
| Schedule.EvaluatorsAgree | client/src/state/schedule_eval.rs:51-117 | on zero-padded times without blank days the two agree at every moment and mean start <= minute < end on an allowed day |
| Schedule.SelectActiveSchedule | client/src/state/schedule_eval.rs:40-48 | none if none is active, else an active one: no active schedule has a higher priority, and of its priority none a lower id |
| Schedule.SelectionIgnoresOrder | client/src/state/schedule_eval.rs:40-48 | with distinct ids the selection does not depend on the list order |
| Telemetry.MaxTempCelsius | server/src/services/telemetry.service.ts:52-55 | the maximum, none for no sensors |
| Telemetry.EvaluateThresholds | server/src/services/telemetry.service.ts:110-197 | the loop over disks and the three tests fire exactly the specified alerts, in order |
| Telemetry.AlertsMeaning | server/src/services/telemetry.service.ts:122-197 | for any earlier rows and any sample: which alert is fired exactly when, the processor's by its rows, temperature and player when the sample meets the test and the row before does not, each disk alert by a reported disk of its mount |
| Telemetry.LowMeans | server/src/services/telemetry.service.ts:47-50 | the percentage test without the division: free bytes against total bytes |
| Telemetry.ReachesIffLongRun | server/src/services/telemetry.service.ts:158-171 | a run counter reaches n at a sample exactly when a maximal run of at least n started n - 1 samples before |
| Telemetry.FiringsCountLongRuns | server/src/services/telemetry.service.ts:158-171 | the counter fires once per maximal run of length at least n |
| Telemetry.CpuAlertIsCounter | server/src/services/telemetry.service.ts:158-171 | with six or seven samples in the query's range, the processor test is the counter over the whole history that fires on reaching five |
| Telemetry.EdgeIsCounter | server/src/services/telemetry.service.ts:181-197 | with two to seven samples in the range, the edge test against the last row is the counter that fires on reaching one |
| Telemetry.AlertsCountRuns | server/src/services/telemetry.service.ts:158-197 | over any history, fed as the service feeds itself: with six or seven samples in the range, `cpu_high` is fired as often as there are maximal runs of at least five; with two to seven, `temp_high` and `mpv_dead` once per maximal run |
| Telemetry.CpuDetectsIff | server/src/services/telemetry.service.ts:111-119 | the processor test is the five-sample counter on every history if and only if six or seven samples fall into the range |
| Telemetry.TempAndMpvDetectIff | server/src/services/telemetry.service.ts:181-197 | the temperature and player tests are the edge detector on every history if and only if two to seven samples fall into the range |
| Telemetry.CpuAlertLooksBack | server/src/services/telemetry.service.ts:158-178 | with more than seven, as at the default tick, a processor alert fires at a sample over the threshold exactly when a run of at least four started two samples after the range did |
| Telemetry.BetterIffShortRun | server/src/services/telemetry.service.ts:126-139 | with k samples in the range, at most seven, a better sample is in sight if and only if the low run is shorter than k and did not start the history |
| Telemetry.DiskAlertsRepeat | server/src/services/telemetry.service.ts:122-156 | with k samples in the range, at most seven, disk alerts fire on each of the first k - 1 samples of a low run and never in a run that starts the history |
| Telemetry.DiskAlertsLookBack | server/src/services/telemetry.service.ts:122-156 | with more than seven, a critical disk alert fires exactly when the mount is low now and was better in one of the six oldest samples of the range |
| Telemetry.LateBurstIsMissed | server/src/database/adapters/sql-base.adapter.ts:1959-1978 | with more than seven rows in the range, a burst at the end is seen in the newest seven and not in the seven the query returns |
| Telemetry.QueryFeedsServiceIff | server/src/services/telemetry.service.ts:111-119 | the rows the query returns give the alerts that the newest rows of the same range would, on every content, if and only if the range holds at most seven rows |
| DownloadSpec.AttemptKeepsPrefix | client/src/network/http.rs:194-379 | one attempt against a server that honours Range keeps the partial file a prefix of the source, and succeeds only with the source |
| DownloadSpec.AttemptsKeepPrefix | client/src/network/http.rs:159-190 | so does any number of broken attempts and 416 restarts |
| DownloadSpec.RetryAgainstHonestServer | client/src/network/http.rs:159-190 | the retry succeeds if and only if one of max(1, max_retries) attempts is answered in full, and then leaves exactly the source |
| DownloadSpec.AppendedAnswerIff | client/src/network/http.rs:308-362 | an appended answer gives the source if and only if it is the missing rest; a server that ignores Range spoils the partial file |
| DownloadSpec.DownloadPlacesSource | client/src/cache/manager.rs:216-294 | with room, the right checksum and a working disk, the call succeeds if and only if one of three attempts is answered in full, and the directory then differs by the source under the cache name and no partial file |
| DownloadSpec.CallTouches | client/src/cache/manager.rs:216-294 | a call touches nothing but its own two names, and a success leaves an entry that passes the check |
| DownloadSpec.CallSucceedsIff | client/src/cache/manager.rs:216-294 | a call succeeds exactly when the entry is valid, or there is room, some attempt is answered in full, the file passes the check and the rename goes through; a failure then leaves no partial file when the cleanup goes through |
| DownloadSpec.ValidEntryNeedsNothing | client/src/cache/manager.rs:223-226 | a valid entry needs no room and no network |
| DownloadSpec.NoRoomNoChange | client/src/cache/manager.rs:245-253 | without one, no room fails the call and changes nothing |
| DownloadSpec.AttemptIsExact | client/src/network/http.rs:194-379 | what each answer makes of the partial file, resumed or not |
| DownloadSpec.StartsOverAfter416 | client/src/network/http.rs:245-254 | a 416 clears the partial file and the next attempt starts it over |
| DownloadSpec.EntryIsSafeIff | client/src/cache/manager.rs:238-294 | whatever directory, server and disk do, the cache entry changes only to verified bytes and a failed call leaves it alone, if and only if the sanitized file name does not end in `.tmp` |
| DownloadSpec.TmpNameLosesEntry | client/src/cache/manager.rs:238-293 | on such a name a new checksum and a silent server are enough to lose the cached file |
| DownloadSpec.RunKeepsPrefix | client/src/cache/manager.rs:245-294 | over any run of calls for any media, honest where they use this partial file, the partial file stays absent or a prefix of the source |
| DownloadSpec.RunKeepsFinalVerified | client/src/cache/checksum.rs:48-66 | over any run of calls for any media, against any servers, a cache entry whose name does not end in `.tmp` is what it was or has a checksum that was expected for it |
| Download.MediaCache.TryOnce | client/src/network/http.rs:194-379 | append on resume, else start over; 416 removes the partial file |
| Download.MediaCache.DownloadWithRetry | client/src/network/http.rs:159-190 | the loop computes the specified retry within its budget and gives up early only on success |
| Download.MediaCache.Fetch | client/src/cache/manager.rs:216-294 | verified entries are kept, else reserve, download, verify and rename, with the partial file cleaned up on failure |
| Semaphore.Semaphore.Create | server/src/utils/semaphore.ts:11-13 | a maximum below one is refused, any other starts empty |
| Semaphore.Semaphore.Acquire | server/src/utils/semaphore.ts:15-24 | counted in at once, or queued |
| Semaphore.Semaphore.Resume | server/src/utils/semaphore.ts:20-23 | a woken waiter counts itself in only now |
| Semaphore.Semaphore.Release | server/src/utils/semaphore.ts:26-30 | counts out and wakes the first of the queue |
| Semaphore.NoLostWakeUp | server/src/utils/semaphore.ts:15-30 | at every step of every run, a non-empty queue implies that holders and woken waiters fill the maximum |
| Semaphore.HoldersAddUp | server/src/utils/semaphore.ts:15-30 | over any run the holders are those at its start plus immediate grants and resumptions minus releases |
| Semaphore.WaitersAddUp | server/src/utils/semaphore.ts:15-30 | over any run whoever queued is resumed, woken or still waiting |
| Semaphore.WokenAsQueued | server/src/utils/semaphore.ts:26-30 | over any run, the waiters woken and those still queued are the waiters that queued, in that order |
| Semaphore.ResumedAsWoken | server/src/utils/semaphore.ts:20-23 | over any run, waiters resume in the order they were woken |
| Semaphore.StepKeepsLoadIff | server/src/utils/semaphore.ts:15-24 | one step keeps holders plus woken waiters within the maximum if and only if it does not barge |
| Semaphore.BoundWithoutBarging | server/src/utils/semaphore.ts:15-30 | without an `acquire` between a waking `release` and its resumption, the holders never exceed the maximum |
| Semaphore.SettledRunsDoNotBarge | server/src/utils/semaphore.ts:15-30 | a run that acquires only when no woken waiter is pending does not barge |
| Semaphore.SettlingReachesLoad | server/src/utils/semaphore.ts:20-23 | letting the woken waiters in exceeds the maximum if and only if the load does |
| Semaphore.OvershootsIffBarges | server/src/utils/semaphore.ts:15-30 | over whole runs: from some point of the run, without another acquire, the holders come to exceed the maximum if and only if the run barges |
| Semaphore.BargingOvershoots | server/src/utils/semaphore.ts:15-30 | two holders of a semaphore of one |
| Subtitles.Rank | client/src/playback/subtitle_selector.rs:96-174 | the first bucket a candidate matches |
| Subtitles.RankMeaning | client/src/playback/subtitle_selector.rs:134-140 | the buckets: preferred and default, preferred, default, forced, any |
| Subtitles.BestMeans | client/src/playback/subtitle_selector.rs:142-171 | nothing usable is of an earlier bucket than the best; in its bucket an embedded best has no usable external rival, and of its kind it is the first listed |
| Subtitles.Choose | client/src/playback/subtitle_selector.rs:96-174 | nothing exactly when disabled or nothing is usable; else the usable candidate that is least by bucket, external before embedded, list position |
| Subtitles.BestIsUnique | client/src/playback/subtitle_selector.rs:96-174 | there is only one such candidate |
| Subtitles.BuildEmbeddedSidMap | client/src/playback/subtitle_selector.rs:203-214 | one sid per embedded track id, numbering the stream order |
| Subtitles.ByStreamIsStreamOrder | client/src/playback/subtitle_selector.rs:203-214 | the sort puts exactly the embedded tracks in order of stream index, ties by list position |
| Subtitles.SidMapIsOrderedBijection | client/src/playback/subtitle_selector.rs:203-214 | with distinct ids the map is a bijection from embedded tracks to 1..m in stream order |
| Subtitles.Resolve | client/src/playback/subtitle_selector.rs:178-199 | the registered sidecars, the font size and the choice of `choose`; an external selection is one of the sidecars |
| Subtitles.SelectedPathIsRegistered | client/src/playback/subtitle_selector.rs:178-199 | the path of every local external candidate is registered |
| Subtitles.RegisteredIff | client/src/playback/subtitle_selector.rs:184-188 | registered are exactly the sidecars of external tracks that are on disk |
| LogRotation.LogDir.ShiftSlots | client/src/logging.rs:243-255 | the reverse loop moves every kept slot one up, even when slots are missing, and stops at the first that does not move, with that one and the lower ones in place |
| LogRotation.LogDir.Rotate | client/src/logging.rs:230-266 | an exact shift of the slots with the live log in slot 1, if and only if the live log is there and every file moves; else the live log stays and the slots are as before or shifted down to the one that stuck |
| LogRotation.FailureKeepsLogs | client/src/logging.rs:230-266 | a rotation that fails half way loses no log but the oldest slot's and leaves the rest newest first |
| LogRotation.ShiftHoldsNewest | client/src/logging.rs:230-266 | one rotation adds the live log to what the slots hold |
| LogRotation.RotationKeepsNewest | client/src/logging.rs:230-266 | after k rotations from empty slots, slot j holds the j-th most recently rotated log for every j up to min(k, max(1, max_files)), and nothing else is kept |
| Reconnect.ReconnectStrategy.NextDelay | client/src/network/reconnect.rs:101-123 | the delay of the attempt, times the jitter factor when jitter is on, within a fifth of it; a delay at the cap exceeds the cap exactly when jittered by more than one; the attempt number advances |
| Reconnect.ReconnectStrategy.Reset | client/src/network/reconnect.rs:126-129 | the sequence starts over |
| Reconnect.PowAboveLine | client/src/network/reconnect.rs:101-115 | the growth is above the line through its first two points |
| Reconnect.MonotoneIff | client/src/network/reconnect.rs:101-115 | the delays never shrink if and only if the base is within the cap |
| Reconnect.ClosedForm | client/src/network/reconnect.rs:101-115 | with the base within the cap, the k-th delay is base * m^k cut off at the cap |
| Reconnect.NextIsScaled | client/src/network/reconnect.rs:101-115 | with the base within the cap, each delay is the one before times the multiplier, until the cap cuts it off for good |
| Reconnect.ReachesCap | client/src/network/reconnect.rs:101-115 | it is the cap from the attempt at which the line through the first two steps reaches it |
| Reconnect.CapIsReached | client/src/network/reconnect.rs:101-115 | there is such an attempt |
| Reconnect.JitterRespectsCapIff | client/src/network/reconnect.rs:109-115 | the k-th jittered delay keeps within the cap for every factor if and only if 1.2 times the delay does |
| StableSort.SortIsPermutation | client/src/cache/lru.rs:130-131 | sorting loses and repeats nothing |
| StableSort.SortIsStable | client/src/playback/subtitle_selector.rs:203-214 | elements with equal keys keep their order |
| Text.DecimalIsDigits | client/src/cache/manager.rs:164-167 | a printed number is its digits and reads back as itself |

## Left out

- LruProperties.AddWithinQuota: the eviction target is any value up to the quota, because the code
  computes 80 percent of it in floating point.
- DownloadSpec.DownloadPlacesSource: one downloader at a time per partial file; two at once share it.
- Schedule.ClientMirrorsServerIff: both sides are given one answer to the conditions; the server's and
  the client's own tests of conditions are outside the model.
- UploadSpec.FailedCompletionsKeep: a completion call that took effect at the store although its answer
  was lost, or a joined file that was written but not measured, counts as not done.
- UploadJobsRuns.CleanRunsFromScratch: one worker, and media rows are inserted by upload jobs only.
- Schedule.SimulateSchedule: what the cron library lists, and its limit on how much, is an argument.
- Database adapters, WebSocket and HTTP plumbing, mpv control, S3, ffprobe, sharp, mail, command line
  and configuration parsing: what they answer is a parameter of the step that asks.
- Cron matching, schedule conditions and server-side conflict resolution: parameters of the schedule
  model; nothing is claimed about them.
- Daylight saving and time zones: days have 24 hours, moments are local milliseconds.
- Number forms other than decimal digits with blanks around them in JavaScript's `Number` and in
  chrono's time parser, and the difference between the two languages' notions of white space.
- Checksums are a function parameter; no claim depends on how they are computed.
- Byte counts are unbounded naturals; overflow of 64-bit counters is not modelled.
- The other eviction target (75 percent of the quota when the disk is short) is a parameter too.
- `usage_percentage`, `stats` and the cleanup timer of the cache.
- Interleavings inside one coordinator handler, and concurrent transfers within a batch (a batch runs
  in list order).
- Playback commands, positions, analytics sessions, screenshots, error reports and log uploads.
- Subtitle downloads and the percent figures of progress bars.
- The sleep between download attempts, and the file-system error paths that fail before the partial
  file is touched (they read as no answer).
- Failures before a session exists (its directory, the start of a multipart upload), and of `abort`.
- Local chunk writes of the buffered upload path are atomic: that path has no cleanup of a failed write.
- Stale-session and orphan cleanup of chunked uploads, and file types and sizes checked before a session.
- The older one-request upload path, deletion of media and folders, subtitles, thumbnails and
  approval notices of an upload job (after the row they can fail only as a whole).
- Writes to the job table either happen and say so or do not happen; stopping and starting the upload
  queue inside one process is not modelled.
- Alert delivery and its rate limits; only the firing decision is modelled.
- The semaphore's `run` wrapper and `stats`; a `release` without a holder, which `run` never makes.
- Backoff is over reals, not over floating-point seconds, and the base delay is fixed during a
  sequence (no reload of the configuration).
