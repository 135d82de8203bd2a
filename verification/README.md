# Proofs about the bacs and bunsan code

Dafny models of the parts of this repository with the most state, each proved to keep what it
promises. `dafny verify dfyconfig.toml` checks everything.

**The package manager (bunsan::pm).** `PmWorld.dfy` and `PmClean.dfy` say what a repository is and
what a build from scratch makes of a package: a table of checksum files fixes everything a build
can read, because a checksum stands for its file. `PmLayout.dfy` says where that build puts every
file. `PmCache.dfy` says when a cache is right, and `PmRepository.dfy` is the engine itself:
fetching, the builder with its own snapshot recursion, and the memoised depth-first search over
stages. `PmTheorems.dfy` puts runs together: an incremental update equals a clean one, a second
update is idle, failure means a cycle. `PmInstall.dfy` adds the directories installed outside the
cache, `PmPublish.dfy` the server's side, and `Entry.dfy` package names with the C++ and the Go
resolver.

**The import protocol (bacs::archive).** `ArchiveImport.dfy` is a step system whose steps are the
critical sections under `m_lock`, with the job queue, the one import in flight and restarts; and a
class whose methods are those sections.

**Smaller machines.** `Fnmatch.dfy` (glob to regular expression), `CurlOptions.dfy` (the shared-slot
option table), `AsioStreams.dfy` (two strand-serialised queues), `WorkerPool.dfy` and
`BrokerWorker.dfy` (the Go broker's pool and what one worker does with a request),
`TextProtocol.dfy` (event lines with base64, section 4 of RFC 4648) and `BlockFraming.dfy`
(length-prefixed blocks).

## What the models take as given

- A checksum is injective (`Digest` is a free constructor). Compiling, packing, unpacking and
  overlaying directories are free terms: equal terms are equal trees, whatever the programs do. The
  trees on which a program throws are a parameter (`broken`).
- The remote repository is one finite table during a run and arbitrary between runs.
- `index` and `checksum` are different file names. bunsan/pm/include/bunsan/pm/config.hpp:45 reads
  the option `index` for both.
- The archive suffix is not empty and has no slash, and the files of a package are told apart by
  their names: no package is called like a file of another one, and no source like an archive.
- Nothing fails between packing an archive and writing its snapshot (builder.cpp:74-76, 129-131).
- Archive revisions stand for their data; CRC-32 collisions are not modelled.
- Package sets that the code keeps in `std::set` or `std::unordered_set` are visited in any order.
- The asynchronous operations keep their contract: a read delivers at most one buffer, a write
  without an error writes everything, and each completes once.
- Regular expressions are those of a fixed dialect: alphanumeric characters, `.`, `.*`, a backslash
  before any other character as that character, and sets. Globs follow section 2.13 of IEEE Std
  1003.1-2017 with `!` for negation.

## Where the code does not keep its promise

- `set_flags` (repository_impl.cpp:287) accepts PENDING_IMPORT, which `set_flag` refuses, and so can
  leave a problem pending for ever: `SetFlagsCanStrandAProblem`, with the exact condition in
  `SetFlagsExactly`.
- A throw while unpacking (repository_impl.cpp:523) uses up the posted job, and an import whose
  revision file is damaged meanwhile cannot commit (line 559); the problem may then stay pending until
  a restart: `FailedUnpackStrandsAProblem`, `DamageStrandsAProblem`. `Allowed` has the exact conditions,
  and `EveryRunIsSafe` says that there are no others.
- The test in `unset_flag` (repository_impl.cpp:303) is the opposite of the comment above it:
  `UnsetFlagExactly`, `UnsetFlagCanUnignoreAFailure`.
- The documentation of `upload` (bacs/archive/include/bacs/archive/repository.hpp:88) says that flags
  are reset; the code keeps them and adds PENDING_IMPORT: `UploadFlagsExactly` says when that is the
  same, and `UploadKeepsFlags` is a run in which it is not.
- `distributor::create` publishes a source whose name holds a slash, and `cache::source_path`
  (cache.cpp:321) refuses that name on every client: `PublishesWhatNobodyCanFetch`, with the exact
  condition in `PublishedIsFetched`.
- An installation directory is recognised by its snapshot, which does not name the package:
  `DirectoryOfTheWrongPackage`, with the exact condition in `Destination.Refresh`. It is always right for
  directories of the same package.
- Copying an `easy` clones an option once per slot. Nothing it refers to is lost, but the copy is in
  step with its table exactly when no option takes two slots, and the assertions of `unsetopt` hold in
  it exactly when every option lists a single identifier: `Easy.Copy`, `CopyAssertionsHold`, and a run in
  `TwoSlotCopyTrips`. An option of the kept kind that curl refuses stays in the table, which is then
  ahead of the handle (`Easy.Set` has the exact outcome). Move assignment does not clean up the handle
  it replaces (`Easy.MoveFrom`).
- With `discard_on_sink_error` the queue is never discarded, since no caller reaches the branch that
  would do it (`SpawnWriter`). A `close` that overtakes a read leads to a write on a closed sink:
  `ReadAfterClose` says exactly when, and `NoLateWrite` that nothing else does. The
  comment on `close` (buffer_connection.hpp:18) promises both handlers word of the end. The handler of
  written data gets none exactly when a `close` finds nothing queued and no read under way, since then
  no later event closes the sink: `EndReportedWhenIdle`, and a run in `SilentClose`. The handler of read
  data is told of the end of the source only, never of a `close`.
- A second `DoAll` panics with the lock held. If that is recovered, a worker that has not got the channel
  yet never does, and the first `DoAll` never returns: `JammedForGood`, `TwoCallsJam`, `OneWorkerJams`.
  With the channel closed or the pool cancelled nothing else keeps it (`PoolComesToRest`).
- A wrong header width in `block_connection::async_write` would call the handler twice; no 64-bit
  size leads to it (`BlockConnection.Write`).
- A pattern whose unclosed bracket holds another `[` makes `parser::finish` change the string it
  iterates over, which is undefined in C++: `TranslateToRegex` has a result exactly for the patterns in
  `Defined`, and `UndefinedPattern` is the shortest without one.

## Model

| member | source | states |
|---|---|---|
| `PmTheorems.IncrementalEqualsClean` | bunsan/pm/src/lib/repository.cpp:179-334 | Whatever earlier runs against any other remotes left in the cache, finished or not, an update ends with the same archives and snapshots at every reachable stage as an update from an empty cache, and fails only if that one fails |
| `PmTheorems.EmptyIsWorst` | bunsan/pm/src/lib/repository.cpp:179-334 | Whatever stops an update from some cache stops one from an empty cache |
| `PmTheorems.SecondUpdateIsIdle` | bunsan/pm/src/lib/repository.cpp:206-334 | After a finished update, a second one against the same remote cannot fail, returns false and calls no builder |
| `PmTheorems.FailsExactlyOnCycles` | bunsan/pm/src/lib/repository.cpp:192-225 | When everything needed is listed under a plain file name and served, and no outside program throws, an update fails exactly when the stage graph below the target has a cycle, and then with the circular-dependency error |
| `PmTheorems.IdleIsNotBlocked` | bunsan/pm/src/lib/repository.cpp:206-334 | When everything is current, nothing the server or the outside programs do can stop an update |
| `PmTheorems.IdleBuildsNothing` | bunsan/pm/src/lib/repository.cpp:263-299 | When everything is current, no stage counts as updated and none is built |
| `PmRepository.Repository.Update` | bunsan/pm/src/lib/repository.cpp:179-204 | A run fails exactly when a package of the import closure or a stage below the target cannot be had or built, or there is a cycle; otherwise every reachable stage ends with what a clean build makes, each reachable stage that was stale or above a stale one has been built once and no other, and every package of the closure is refreshed; finished or not, it changes nothing that is kept of any other package |
| `PmRepository.NothingBlocked` | bunsan/pm/src/lib/repository.cpp:188-190 | A run that got through was blocked at no reachable stage |
| `PmRepository.Repository.UpdatePackageDepends` | bunsan/pm/src/lib/repository.cpp:206-334 | The memoised search ends on every finite repository; fresh or memoised, its result says whether anything below was stale at the start and its snapshot is the clean one; a stage met while in progress is on a cycle |
| `PmRepository.Repository.UpdateStage` | bunsan/pm/src/lib/repository.cpp:225-333 | One stage: dependencies, then the stage, then the memo tables, keeping the invariant of the search |
| `PmRepository.Repository.UpdateDependencies` | bunsan/pm/src/lib/repository.cpp:230-317 | The loops over dependencies: `upd` is the disjunction and the snapshot the union over all of them |
| `PmRepository.Repository.FinishStage` | bunsan/pm/src/lib/repository.cpp:263-327 | The four kinds of stage: afterwards the stage is up to date and no other stage became stale or fresh; a failure is explained by what was missing at the start |
| `PmRepository.Repository.FinishInstallation` | bunsan/pm/src/lib/repository.cpp:263-269 | Rebuilds exactly when something below was updated or the stored snapshot is not the current one, and is then not outdated |
| `PmRepository.Repository.RunBuilder` | bunsan/pm/src/lib/repository.cpp:281-299 | Either way of building leaves the clean build and the snapshot the search computed |
| `PmRepository.Repository.FinishBuild` | bunsan/pm/src/lib/repository.cpp:280-299 | The same for builds and empty builds; the assertions after them hold |
| `PmRepository.Repository.FinishSource` | bunsan/pm/src/lib/repository.cpp:318-327 | Source archives become those promised, and the package's checksums join the snapshot without contradicting it |
| `PmRepository.MergeMaps` | bunsan/pm/src/lib/repository/merge_maps.hpp:7-17 | The union of two maps that agree where they meet |
| `PmRepository.MergedSubmaps` | bunsan/pm/src/lib/repository/merge_maps.hpp:12-13 | Snapshots of one world never contradict each other, so the assertion in `merge_maps` holds at every call |
| `PmRepository.CycleFound` | bunsan/pm/src/lib/repository.cpp:212-216 | The circular-dependency error is thrown only when a cycle is reachable from the target |
| `PmRepository.Settle` | bunsan/pm/src/lib/repository.cpp:331-333 | Memoising a stage keeps the invariant: the stages remembered are complete, and each was built once if it was updated |
| `PmRepository.RunEnds` | bunsan/pm/src/lib/repository.cpp:188-190 | When the search returns, everything reachable is up to date and built as often as it had to be |
| `PmRepository.Repository.UpdateMetaTree` | bunsan/pm/src/lib/repository.cpp:192-204 | Ends even on cyclic imports; refreshes exactly the import closure, each package once, under plain names but for the target; fails exactly when a package of the closure is not available |
| `PmRepository.Repository.UpdateMetaFrom` | bunsan/pm/src/lib/repository.cpp:194-202 | One call of the closure: visited packages that no call is busy with import visited ones only |
| `PmRepository.Repository.UpdateMetaOfAll` | bunsan/pm/src/lib/repository.cpp:200 | The loop over the imports of one package |
| `PmRepository.Repository.UpdateMeta` | bunsan/pm/src/lib/repository/distributor.cpp:130-154 | A package is refreshed to the server's checksum file and to the index that file promises, or the call fails; it succeeds when the index is served or already cached |
| `PmRepository.Repository.UpdateSources` | bunsan/pm/src/lib/repository/distributor.cpp:156-169 | Succeeds exactly when every source is listed under a plain file name and each is served or already cached; afterwards all are those promised and other packages keep theirs |
| `PmRepository.Repository.FetchSources` | bunsan/pm/src/lib/repository/distributor.cpp:159-163 | The loop over the sources, with the exact condition for its success; a name that is no plain file name is refused where the cache makes a path of it (cache.cpp:321) |
| `PmRepository.Repository.UpdateFile` | bunsan/pm/src/lib/repository/distributor.cpp:171-186 | A file is fetched only when its checksum is not the expected one; success means the expected file is stored |
| `PmRepository.Repository.VerifyAndRepair` | bunsan/pm/src/lib/repository/cache.cpp:77-102 | A cache of another version is emptied and any other is left alone |
| `PmRepository.Repository.BuildEmptyPackage` | bunsan/pm/src/lib/repository/builder.cpp:38-51 | The empty build and its one-package snapshot are the clean ones, unless packing the empty directory throws |
| `PmRepository.Repository.BuildPackage` | bunsan/pm/src/lib/repository/builder.cpp:53-82 | The build and the snapshot the builder computes on its own are the clean ones |
| `PmRepository.Repository.UnpackSource` | bunsan/pm/src/lib/repository/builder.cpp:84-109 | Without a cycle check of its own it ends on every package whose source stage is complete; it lays out the clean source directory and adds exactly the packages of that stage to the snapshot |
| `PmRepository.Repository.UnpackSources` | bunsan/pm/src/lib/repository/builder.cpp:101-103 | The loop over source imports |
| `PmRepository.Repository.ExtractInstallations` | bunsan/pm/src/lib/repository/builder.cpp:104-108 | The loop over package imports, with the stored snapshots merged in |
| `PmRepository.Repository.UnpackSelf` | bunsan/pm/src/lib/repository/builder.cpp:89-91 | The loop over the package's own sources: each one stored is unpacked below its path, in order |
| `PmRepository.Repository.DumpChecksum` | bunsan/pm/src/lib/repository/builder.cpp:92-100 | The re-keying through `package.name()` changes nothing, and the assertion beside it holds |
| `PmRepository.Repository.BuildInstallation` | bunsan/pm/src/lib/repository/builder.cpp:111-137 | The installation and the snapshot the builder computes are the clean ones |
| `PmRepository.SourceKeys` | bunsan/pm/src/lib/repository/builder.cpp:84-109 | The packages met by the builder's recursion over sources are those the search's snapshot covers |
| `PmRepository.BuildKeys` | bunsan/pm/src/lib/repository.cpp:271-300 | A build covers what its source stage covers; an empty build covers the package alone |
| `PmRepository.InstallationKeys` | bunsan/pm/src/lib/repository/builder.cpp:111-131 | The same for installations |
| `PmClean.SnapshotDeterminesContent` | bunsan/pm/src/lib/repository/builder.cpp:53-137 | A stage with the same snapshot in two remote states has the same stage graph, indexes, snapshots and archives below it in both |
| `PmClean.SnapshotCoversReachableSources` | bunsan/pm/src/lib/repository.cpp:217-333 | A snapshot maps exactly the packages whose source stage is reachable, to their current checksums |
| `PmClean.SnapshotIsWorld` | bunsan/pm/src/lib/repository/builder.cpp:84-137 | A build reads nothing outside its snapshot: the snapshot taken as the whole repository gives the same archive |
| `PmClean.StageLocal` | bunsan/pm/src/lib/repository.cpp:227-333 | A stage depends on nothing but the packages its snapshot covers |
| `PmLayout.BuiltUnlessNothing` | bunsan/pm/src/lib/index.cpp:17-19 | The builder runs for a package exactly when its index names anything for the source stage, so whenever there is anything in its source directory |
| `PmLayout.SourceHolds` | bunsan/pm/src/lib/repository/builder.cpp:84-109 | A source directory holds the package's own sources, what the imported source directories hold and the imported installations, each below the path of its import, and nothing else |
| `PmLayout.SourceLayout` | bunsan/pm/src/lib/repository/builder.cpp:84-109 | And in which order they are put there |
| `PmLayout.SourceDirMoves` | bunsan/pm/src/lib/repository/builder.cpp:101-103 | Unpacked further down, a source directory is the same one moved there |
| `PmLayout.InstallationHolds` | bunsan/pm/src/lib/repository/builder.cpp:111-137 | An installation holds the build and the same three for the package stage, and nothing else |
| `PmLayout.InstallationLayout` | bunsan/pm/src/lib/repository/builder.cpp:111-137 | The build comes first and the rest goes over it, in order |
| `PmCache.CurrentSnapshotSuffices` | bunsan/pm/src/lib/repository/cache.cpp:252-282 | In a cache where archives fit the snapshots beside them, a current snapshot means a right archive |
| `PmCache.StoreBuild` | bunsan/pm/src/lib/repository/builder.cpp:74-76 | Storing a build with its snapshot keeps that fit and makes no other stage stale or fresh |
| `PmCache.StoreInstallation` | bunsan/pm/src/lib/repository/builder.cpp:129-131 | The same for installations |
| `PmWorld.SoundHasNoCycle` | bunsan/pm/src/lib/repository.cpp:212-216 | A stage that can be built from scratch reaches no cycle |
| `PmWorld.DependsMembers` | bunsan/pm/src/lib/index.cpp:17-40 | Every dependency of a stage is an imported package or an earlier stage of the same package |
| `PmWorld.Rekey` | bunsan/pm/src/lib/repository/builder.cpp:99 | Writing a package's name and reading it again gives the package |
| `PmWorld.IndexIsResolved` | bunsan/pm/src/lib/index.cpp:71-76 | In each of the four lists of an index file a name that starts with `..` stands for one beside the package, one that starts with `.` for one below it, any other for itself; paths and own sources stay |
| `PmWorld.ImportsArePlain` | bunsan/pm/src/lib/index.cpp:71-76 | Every imported package has a name without `.` and `..` |
| `PmWorld.AllImports` | bunsan/pm/src/lib/index.cpp:21-33 | A package is imported exactly when one of the four lists names it |
| `PmWorld.AllSources` | bunsan/pm/src/lib/index.cpp:35-40 | A source is needed exactly when one of the two stages names it |
| `PmWorld.DependsExactly` | bunsan/pm/src/lib/repository.cpp:228-317 | The stages below each kind of stage, and no others |
| `PmCache.WrittenIsImported` | bunsan/pm/src/lib/repository/cache.cpp:150-152 | What an index file writes is visited under the name it stands for |
| `PmCache.ReachedIsPlain` | bunsan/pm/src/lib/repository.cpp:192-204 | Everything an update visits but its target has such a name |
| `PmInstall.UpdateInstallation` | bunsan/pm/src/lib/repository.cpp:117-131 | After an update a directory holds the clean installation exactly when it did not hold the current snapshot before, or the package it was made for installs the same from it; so always for the same package. A failed update does not touch it |
| `PmInstall.Destination.Install` | bunsan/pm/src/lib/repository/extractor.cpp:32-58 | The directory holds the clean installation and its snapshot |
| `PmInstall.Destination.Refresh` | bunsan/pm/src/lib/repository/extractor.cpp:60-89 | Skips exactly when the meta file holds the current snapshot; the exact condition for the outcome to be right |
| `PmInstall.SnapshotsDoNotNameThePackage` | bunsan/pm/src/lib/repository/extractor.cpp:75-80 | Two packages that import each other's sources have equal snapshots and different installations |
| `PmInstall.DirectoryOfTheWrongPackage` | bunsan/pm/src/lib/repository/extractor.cpp:60-89 | Two successful updates after which a directory asked to hold the second of them still holds the first |
| `PmPublish.SourcePackage.Create` | bunsan/pm/src/lib/repository/distributor.cpp:49-97 | Succeeds exactly when the index parses and every source exists; sources are removed only then; every source and the index are listed |
| `PmPublish.PublishedIsFetched` | bunsan/pm/src/lib/repository/distributor.cpp:49-97 | A client with an empty cache can fetch the metadata of what was published exactly when no source takes the index's line in the checksum file or its archive is the index; and then its sources exactly when all of them have plain file names |
| `PmPublish.PublishesWhatNobodyCanFetch` | bunsan/pm/src/lib/repository/cache.cpp:317-335 | A package with a source in a subdirectory is published without an error, and every update that needs it fails |
| `PmEntry.Entry.Build` | bunsan/pm/src/lib/entry.cpp:26-36 | The entry a name stands for, or the error for a name that is not allowed |
| `PmEntry.Entry.MakeAbsolute` | bunsan/pm/src/lib/entry.cpp:80-97 | Follows every component from the top, from `root` when the entry is relative |
| `PmEntry.ParseOfName` | bunsan/pm/src/lib/entry.cpp:113-116 | Reading the name of a non-empty valid entry gives the entry back, and only the empty one has no name |
| `PmEntry.AbsoluteIsFixedPoint` | bunsan/pm/src/lib/entry.cpp:80-97 | The result has no `.` or `..`, is valid, and making it absolute again changes nothing; a root may be made absolute first |
| `PmEntry.NormalizeSteps` | bunsan/pm/src/lib/entry.cpp:86-95 | A step down and `..` cancel out, `.` leads nowhere, and `..` at the top does not lead out |
| `PmEntry.AbsoluteOfRelative` | bunsan/pm/src/lib/entry.cpp:80-97 | For plain names: `../e` stands for `e` beside the root, `./e` for `e` below it, and `e` for itself |
| `PmEntry.ParseAccepts` | bunsan/pm/src/lib/entry.cpp:12-36 | A name is accepted exactly when it is made of letters, digits, `_`, `-`, `.` and slashes and has no slash at either end |
| `PmEntry.NameOfParse` | bunsan/pm/src/lib/entry.cpp:113-121 | A name without double slashes is written again as it was |
| `GoPath.Split` | go/bunsan/pm/path/path.go:13-21 | The non-empty pieces between slashes, in order |
| `GoPath.AbsolutePath` | go/bunsan/pm/path/path.go:31-56 | The Go resolver against the same specification |
| `GoPath.ResolversAgree` | go/bunsan/pm/path/path.go:31-56 | On names the C++ side accepts, the Go resolver gives the name of the C++ result |
| `GoPath.RelativeInGo` | go/bunsan/pm/path/path.go:31-56 | On the Go side too: beside the root, below it, or itself |
| `GoPath.GoResultParses` | go/bunsan/pm/path/path.go:31-56 | Its result is a name that stands for the C++ result |
| `ArchiveImport.EveryRunIsSafe` | bacs/archive/src/lib/repository_impl.cpp:106-143 | In every interleaving of uploads, scheduled and direct imports, flag operations, failures to unpack, damaged revision files and restarts: as long as, and only as long as, every step is one of the allowed ones, a problem that is not pending has a result of its current revision, ignored if it failed, and a pending one has an import of its current revision queued, about to be posted or in flight |
| `ArchiveImport.StepKeepsInv` | bacs/archive/src/lib/repository_impl.cpp:501-578 | One critical section keeps that exactly when it is allowed: with the exact condition for `set_flags` with PENDING_IMPORT, for a job that cannot unpack its data, and for damage during an import |
| `ArchiveImport.LockProtects` | bacs/archive/src/lib/repository_impl.cpp:112-142 | With LOCKED or READ_ONLY set nothing changes the data of a problem, and only an import of them changes its result |
| `ArchiveImport.LockedUntilUnlocked` | bacs/archive/src/lib/repository_impl.cpp:317-359 | In every run LOCKED holds, and the data stay, until `unset_flags` with LOCKED or `clear_flags` |
| `ArchiveImport.ReadOnlyForGood` | bacs/archive/src/lib/repository_impl.cpp:279-359 | In every run READ_ONLY stays for good, and so do the data and all flags but IGNORE and PENDING_IMPORT |
| `ArchiveImport.OthersStay` | bacs/archive/src/lib/repository_impl.cpp:106-578 | A critical section changes no problem but the one it is about, and removes none |
| `ArchiveImport.UploadReplaces` | bacs/archive/src/lib/repository_impl.cpp:113-138 | An upload that no lock stops replaces data and revision, drops the result, keeps the flags and adds PENDING_IMPORT |
| `ArchiveImport.FlagsEdited` | bacs/archive/src/lib/repository_impl.cpp:256-359 | Flag by flag, what the four operations add and remove, and that a read-only problem is left alone |
| `ArchiveImport.RegularRunIsSafe` | bacs/archive/src/lib/repository_impl.cpp:106-143 | Runs in which nobody passes PENDING_IMPORT to `set_flags`, data can be unpacked and the revision in flight is not damaged are safe throughout |
| `ArchiveImport.RestartRestores` | bacs/archive/src/lib/repository.cpp:22-34 | Opening the repository needs nothing but what is on disk to restore the lost jobs |
| `ArchiveImport.ServerComesToRest` | bacs/archive/src/lib/repository_impl.cpp:462-578 | Left alone, the server finishes its jobs, and no problem is pending then |
| `ArchiveImport.ResultsAreCurrent` | bacs/archive/src/lib/repository_impl.cpp:361-379 | Asking for a result gives one of the current revision, or says that an import is on its way; the file is never missing |
| `ArchiveImport.SetFlagsExactly` | bacs/archive/src/lib/repository_impl.cpp:279-292 | `set_flags` keeps the promise exactly when PENDING_IMPORT is not passed, the call is refused, or an import is on its way anyhow |
| `ArchiveImport.SetFlagsCanStrandAProblem` | bacs/archive/src/lib/repository_impl.cpp:279-292 | A run from the empty archive after which a problem is pending and no job will ever run |
| `ArchiveImport.FailedUnpackStrandsAProblem` | bacs/archive/src/lib/repository_impl.cpp:521-527 | The same for an upload whose data cannot be unpacked; a restart helps |
| `ArchiveImport.DamageStrandsAProblem` | bacs/archive/src/lib/repository_impl.cpp:556-562 | The same for damage to the revision file during an import; a restart helps |
| `ArchiveImport.UnsetFlagExactly` | bacs/archive/src/lib/repository_impl.cpp:294-310 | The inverted test in `unset_flag` breaks the promise exactly when it takes IGNORE from a problem whose import failed |
| `ArchiveImport.UnsetFlagCanUnignoreAFailure` | bacs/archive/src/lib/repository_impl.cpp:294-310 | A run from the empty archive after which it does |
| `ArchiveImport.UploadFlagsExactly` | bacs/archive/src/lib/repository_impl.cpp:106-143 | An accepted upload leaves PENDING_IMPORT alone exactly when the problem is new or had no other flag |
| `ArchiveImport.UploadKeepsFlags` | bacs/archive/src/lib/repository_impl.cpp:106-143 | A run from the empty archive in which a flag survives the next upload |
| `ArchiveImport.Repository.constructor` | bacs/archive/src/lib/repository.cpp:22-34 | Opening schedules every pending problem |
| `ArchiveImport.Repository.SchedulePending` | bacs/archive/src/lib/repository_impl.cpp:478-499 | The scan schedules exactly the pending problems |
| `ArchiveImport.Repository.Upload` | bacs/archive/src/lib/repository_impl.cpp:106-143 | Refuses a locked problem; otherwise stores the data, drops the old result, keeps the flags, marks the problem and queues it |
| `ArchiveImport.Repository.PrepareImport` | bacs/archive/src/lib/repository_impl.cpp:445-476 | Marks an existing problem and commits the caller to posting a job |
| `ArchiveImport.Repository.PostImport` | bacs/archive/src/lib/repository_post.cpp:8-10 | The posted job is queued |
| `ArchiveImport.Repository.StartImport` | bacs/archive/src/lib/repository_impl.cpp:501-531 | Captures revision and data together, writing an unreadable revision again; uses up the job if the data cannot be unpacked |
| `ArchiveImport.Repository.CommitImport` | bacs/archive/src/lib/repository_impl.cpp:533-578 | Commits exactly when the revision is still the captured one |
| `ArchiveImport.Repository.SetFlags` | bacs/archive/src/lib/repository_impl.cpp:279-292 | Adds the flags unless the problem is read-only |
| `ArchiveImport.Repository.UnsetFlags` | bacs/archive/src/lib/repository_impl.cpp:317-336 | Removes the flags but IGNORE and PENDING_IMPORT |
| `ArchiveImport.Repository.ClearFlags` | bacs/archive/src/lib/repository_impl.cpp:338-359 | Keeps IGNORE and PENDING_IMPORT only |
| `ArchiveImport.Repository.ReadImportResult` | bacs/archive/src/lib/repository_impl.cpp:361-374 | Answers from the current state |
| `Fnmatch.SameLanguage` | bunsan/common/src/fnmatch.cpp:132-136 | The emitted regular expression accepts a string exactly when the glob does |
| `Fnmatch.TranslationIsFaithful` | bunsan/common/src/fnmatch.cpp:132-136 | Read back, it is item for item what the glob means, and malformed exactly when the glob has a meaningless bracket expression |
| `Fnmatch.GlobText` | bunsan/common/src/fnmatch.cpp:17-40 | Of globs: `*` accepts any string, `?` any character, other characters themselves |
| `Fnmatch.GlobSet` | bunsan/common/src/fnmatch.cpp:41-93 | A bracket expression accepts one character that is in it, or, negated, one that is not; a `]` may come first |
| `Fnmatch.GlobRange` | bunsan/common/src/fnmatch.cpp:41-93 | A range accepts what lies between its ends |
| `Fnmatch.GlobOpenBracket` | bunsan/common/src/fnmatch.cpp:102-117 | A bracket that nothing closes stands for itself |
| `Fnmatch.RegexText` | bunsan/common/src/fnmatch.cpp:17-40 | Of regular expressions: `.*`, `.`, alphanumeric characters, and a backslash before any other |
| `Fnmatch.RegexSet` | bunsan/common/src/fnmatch.cpp:64-93 | Sets, negated by `^`, the first member plain or escaped |
| `Fnmatch.ClassMeans` | bunsan/common/src/fnmatch.cpp:64-93 | What the models give no meaning: `[:`, `[.` and `[=` inside brackets |
| `Fnmatch.TranslateToRegex` | bunsan/common/src/fnmatch.cpp:132-136 | The character-by-character parser has a result exactly for the defined patterns, and then it is the translation |
| `Fnmatch.Parser.Feed` | bunsan/common/src/fnmatch.cpp:17-101 | One character, in each state |
| `Fnmatch.Parser.CommitChoice` | bunsan/common/src/fnmatch.cpp:64-93 | The loop that writes a set out, escaping what has to be |
| `Fnmatch.Parser.Finish` | bunsan/common/src/fnmatch.cpp:102-117 | What follows an unclosed bracket is read again as text; with another `[` in it, and only then, the parser clears the string being read |
| `Fnmatch.UndefinedPattern` | bunsan/common/src/fnmatch.cpp:102-117 | The shortest pattern without a result |
| `CurlOptions.OptionSet.Unset` | bunsan/curl/src/options/option_set.cpp:64-77 | Takes an option out of all its slots and off the handle; an assertion fails exactly when the option is not stored under all its slots or lists one twice |
| `CurlOptions.OptionSet.Erase` | bunsan/curl/src/options/option_set.cpp:68-73 | The loop over the option's identifiers |
| `CurlOptions.AssertionsHold` | bunsan/curl/src/options/option_set.cpp:64-77 | In a sound table no assertion fails, exactly when no stored option lists a slot twice |
| `CurlOptions.OptionSet.UnsetAll` | bunsan/curl/src/options/option_set.cpp:45 | Every option sharing a slot goes, all others stay |
| `CurlOptions.OptionSet.StoreAndSet` | bunsan/curl/src/options/option_set.cpp:39-48 | The table stays sound, the new option holds exactly its slots, and nothing the handle refers to is lost; the table still keeps exactly what the handle refers to unless curl refuses the option |
| `CurlOptions.OptionSet.SetByCurl` | bunsan/curl/include/bunsan/curl/options/option_set.hpp:94-98 | The same for options curl copies, which are not kept; refused or not, table and handle stay in step |
| `CurlOptions.OptionSet.Replay` | bunsan/curl/src/options/option_set.cpp:50-58 | Each live option is set exactly once, and a fresh handle then refers to exactly the options in the table |
| `CurlOptions.OptionSet.Clear` | bunsan/curl/src/options/option_set.cpp:60-62 | Empties the table; a handle stays in step with it exactly when the table was empty, and one without any call gets in step |
| `CurlOptions.Easy.constructor` | bunsan/curl/src/easy.cpp:56-61 | A fresh handle and an empty table are in step |
| `CurlOptions.Easy.Set` | bunsan/curl/include/bunsan/curl/easy.hpp:56-59 | Trips an assertion exactly when an option in the way cannot be removed; otherwise all the handle refers to is kept alive, and the two stay in step exactly unless curl refuses an option of the kept kind |
| `CurlOptions.Easy.Reset` | bunsan/curl/src/easy.cpp:110-113 | The handle is reset before the table is cleared, so they stay in step |
| `CurlOptions.Easy.Drop` | bunsan/curl/src/easy.cpp:13-18 | The handle is cleaned up before the table is cleared |
| `CurlOptions.Easy.Swap` | bunsan/curl/src/easy.cpp:65-72 | Handles and tables are exchanged together and stay in step |
| `CurlOptions.Easy.Copy` | bunsan/curl/src/easy.cpp:25-35 | All that the duplicated handle refers to after the replay is kept alive by the copied table; the two are in step exactly when no option of the original takes two slots, and every slot of the copy can be emptied exactly when each option lists one identifier |
| `CurlOptions.CopyAssertionsHold` | bunsan/curl/src/options/option_set.cpp:64-77 | In a copied table the assertions of `unsetopt` hold for every slot exactly when each option of the original lists one identifier |
| `CurlOptions.TwoSlotCopyTrips` | bunsan/curl/src/options/option_set.cpp:64-77 | A run: a callback with its data is set, copied, and cannot be taken out of the copy |
| `CurlOptions.Easy.MoveFrom` | bunsan/curl/src/easy.cpp:48-54 | Both sides stay in step; the handle that is replaced, if there is one, is not cleaned up |
| `CurlOptions.ClonesInStep` | bunsan/curl/src/options/option_set.cpp:13-16 | The exact condition, for any order of the replay |
| `CurlOptions.ClonesAreKept` | bunsan/curl/src/options/option_set.cpp:13-16 | A clone takes the place of every original the handle referred to |
| `CurlOptions.OptionSet.TakeFrom` | bunsan/curl/src/easy.cpp:51 | The table is moved and the other one left empty |
| `CurlOptions.OptionSet.Swap` | bunsan/curl/src/options/option_set.cpp:23-27 | Exchanges two tables slot by slot |
| `CurlOptions.OptionSet.Copy` | bunsan/curl/src/options/option_set.cpp:13-16 | The copy constructor clones per slot: the copy is sound exactly when no option of the original takes two slots |
| `CurlOptions.OptionSlot` | bunsan/curl/src/options/option_set.cpp:30-36 | Repeated subtraction finds the slot |
| `CurlOptions.SlotOfNumber` | bunsan/curl/src/options/option_set.cpp:30-36 | Each type numbers its slots from a multiple of ten thousand |
| `AsioStreams.BufferConnection.HandleRead` | bunsan/common/include/bunsan/asio/buffer_connection.hpp:116-137 | Bytes accepted are bytes written followed by the queue; a read starts unless closed, the sink closes only with an empty queue, a write under way stays the only one; a write starts exactly when there is data for an idle working sink, and on a closed sink only after a close that overtook a read |
| `AsioStreams.BufferConnection.ReadOn` | bunsan/common/include/bunsan/asio/buffer_connection.hpp:129-136 | The next read, or the end of the source |
| `AsioStreams.BufferConnection.HandleWrite` | bunsan/common/include/bunsan/asio/buffer_connection.hpp:139-166 | The same for writes, complete or cut short by an error; the assertions about the size hold |
| `AsioStreams.BufferConnection.Take` | bunsan/common/include/bunsan/asio/buffer_connection.hpp:139-154 | What was written leaves the queue, whole or in part |
| `AsioStreams.BufferConnection.WriteOn` | bunsan/common/include/bunsan/asio/buffer_connection.hpp:156-166 | The next write, the end, or an error |
| `AsioStreams.BufferConnection.Accept` | bunsan/common/include/bunsan/asio/buffer_connection.hpp:120-127 | What is queued, and when a writer is started |
| `AsioStreams.BufferConnection.SpawnWriter` | bunsan/common/include/bunsan/asio/buffer_connection.hpp:99-114 | Starts the write of the front; no caller reaches its branch that drops the queue |
| `AsioStreams.BufferConnection.TryCloseSink` | bunsan/common/include/bunsan/asio/buffer_connection.hpp:168-173 | Closes the sink when it is due, which needs an empty queue |
| `AsioStreams.BufferConnection.Close` | bunsan/common/include/bunsan/asio/buffer_connection.hpp:74-79 | Closes the sink at once exactly when the queue is empty; it is silent exactly when no read is under way either |
| `AsioStreams.BufferConnection.Terminate` | bunsan/common/include/bunsan/asio/buffer_connection.hpp:81-86 | Closes everything and keeps the queue; no write starts later |
| `AsioStreams.BufferConnection.Start` | bunsan/common/include/bunsan/asio/buffer_connection.hpp:88-97 | Starts reading unless terminated |
| `AsioStreams.DrainedWhenIdle` | bunsan/common/include/bunsan/asio/buffer_connection.hpp:74-173 | With nothing under way and no sink error, all that was received has been written, and the sink is closed exactly when the connection was closed or closes it at the end of the source |
| `AsioStreams.EndReportedWhenIdle` | bunsan/common/include/bunsan/asio/buffer_connection.hpp:74-173 | Once a closed connection is at rest with a working sink, the handler of written data has been told of the end exactly if the close was not silent, and that of read data exactly if the source ended |
| `AsioStreams.SilentClose` | bunsan/common/include/bunsan/asio/buffer_connection.hpp:74-79 | A run that ends with the sink closed and the handler of written data never told |
| `AsioStreams.NoLateWrite` | bunsan/common/include/bunsan/asio/buffer_connection.hpp:74-173 | As long as nobody closes the connection while it reads, or starts it closed, no write starts on a closed sink |
| `AsioStreams.ReadAfterClose` | bunsan/common/include/bunsan/asio/buffer_connection.hpp:74-127 | A close during a read puts a write on a closed sink exactly when it finds the queue empty and the read then brings data to a working sink |
| `AsioStreams.QueuedWriter.Push` | bunsan/common/include/bunsan/asio/queued_writer.hpp:42-48 | Objects complete in push order with one write at a time |
| `AsioStreams.QueuedWriter.HandleWrite` | bunsan/common/include/bunsan/asio/queued_writer.hpp:72-83 | Only a successful write completes the front object; after a failed one nothing more is written |
| `AsioStreams.QueuedWriter.Close` | bunsan/common/include/bunsan/asio/queued_writer.hpp:50-55 | Closes the connection at once exactly when the queue is empty |
| `AsioStreams.QueuedWriter.Terminate` | bunsan/common/include/bunsan/asio/queued_writer.hpp:57-60 | Closes the connection and keeps the queue |
| `AsioStreams.CompletedWhenIdle` | bunsan/common/include/bunsan/asio/queued_writer.hpp:42-83 | A writer at rest has completed everything pushed exactly when no write failed, and has then closed its connection exactly when told to close |
| `WorkerPool.EveryRunIsSafe` | go/bunsan/broker/worker/worker_pool.go:78-111 | In every interleaving each request sent is in the channel or went to exactly one worker, which does it once; a worker receives at most one request after `Cancel` |
| `WorkerPool.DoAllFinishesRequests` | go/bunsan/broker/worker/worker_pool.go:113-118 | When `DoAll` has returned every request received is finished, without `Cancel` the channel is closed and drained, and no request is started any more |
| `WorkerPool.PoolComesToRest` | go/bunsan/broker/worker/worker_pool.go:78-124 | Left alone the pool comes to rest; once cancelled, or closed with a worker present, `DoAll` has returned by then unless a second call jammed a worker, and otherwise no request waits beside an idle worker |
| `WorkerPool.JammedForGood` | go/bunsan/broker/worker/worker_pool.go:34-51 | Once a second `DoAll` has panicked while a worker still waits for the channel, the first one never returns, whatever happens |
| `WorkerPool.TwoCallsJam` | go/bunsan/broker/worker/worker_pool.go:43-51 | Calling it twice before any worker got the channel does that whenever there is a worker |
| `WorkerPool.OneWorkerJams` | go/bunsan/broker/worker/worker_pool.go:43-51 | A run from the empty pool |
| `WorkerPool.OwnersAreFinal` | go/bunsan/broker/worker/worker_pool.go:71-76 | A request once received stays with its worker |
| `WorkerPool.StepKeepsGroup` | go/bunsan/broker/worker/worker_pool.go:97-107 | The wait group counts the workers that have not finished |
| `WorkerPool.Pool.CheckCanceler` | go/bunsan/broker/worker/worker_pool.go:101-105 | The check in `Add`; it panics exactly after `Cancel` |
| `WorkerPool.Pool.Start` | go/bunsan/broker/worker/worker_pool.go:106-108 | A worker is counted before its goroutine starts |
| `WorkerPool.Pool.SignalFirstWorker` | go/bunsan/broker/worker/worker_pool.go:109 | The first worker is signalled once |
| `WorkerPool.Pool.CancelAll` | go/bunsan/broker/worker/worker_pool.go:120-124 | Cancelling, which panics the second time |
| `WorkerPool.Pool.SetRequests` | go/bunsan/broker/worker/worker_pool.go:43-51 | Setting the channel, which panics the second time with the lock held |
| `WorkerPool.Pool.GoOn` | go/bunsan/broker/worker/worker_pool.go:115-117 | The two waits of `DoAll` |
| `WorkerPool.Pool.Get` | go/bunsan/broker/worker/worker_pool.go:34-41 | A worker waits until the channel is set |
| `WorkerPool.Pool.OuterSelect` | go/bunsan/broker/worker/worker_pool.go:81-85 | A cancelled pool lets no worker on to the inner select |
| `WorkerPool.Pool.Receive` | go/bunsan/broker/worker/worker_pool.go:86-91 | One request is received |
| `WorkerPool.Pool.ReceiveClosed` | go/bunsan/broker/worker/worker_pool.go:87-90 | A closed and empty channel ends the worker |
| `WorkerPool.Pool.Canceled` | go/bunsan/broker/worker/worker_pool.go:92-93 | A cancelled pool ends a waiting worker |
| `WorkerPool.Pool.EndRequest` | go/bunsan/broker/worker/worker_pool.go:71-76 | A request is finished however its worker fared |
| `WorkerPool.Pool.Exit` | go/bunsan/broker/worker/worker_pool.go:97 | The worker leaves the wait group |
| `WorkerPool.Pool.RunWorker` | go/bunsan/broker/worker/worker_pool.go:78-98 | The whole goroutine, with anything the others may do between its actions: it has finished exactly the requests it received, and leaves only after `Cancel` or when the channel is closed and empty |
| `WorkerPool.Pool.InnerSelect` | go/bunsan/broker/worker/worker_pool.go:86-94 | One round of the inner select, which takes any of the things it waits for |
| `WorkerPool.Pool.Serve` | go/bunsan/broker/worker/worker_pool.go:71-91 | One request, received and finished |
| `BrokerWorker.Do` | go/bunsan/broker/worker/worker.go:67-92 | Whatever panics or fails, the request sees all statuses in order, then the result, then one acknowledgement or one error and rejection |
| `BrokerWorker.AcknowledgedExactly` | go/bunsan/broker/worker/worker.go:67-92 | Acknowledged exactly when a result was written without error; either answer comes once and last |
| `BrokerWorker.EveryOutcome` | go/bunsan/broker/worker/worker.go:37-92 | The whole transcript for each way a request can go, with the error that names what failed |
| `BrokerWorker.StatusesComeFirst` | go/bunsan/broker/worker/worker.go:45-64 | All statuses come first, in order, and none later |
| `BrokerWorker.ForwardStatuses` | go/bunsan/broker/worker/worker.go:45-59 | Any interleaving of the driver with the forwarding goroutine writes all statuses in order, with at most a hundred waiting |
| `BrokerWorker.Attempted` | go/bunsan/broker/worker/worker.go:37-65 | Extraction, the driver and the result, with every way of failing |
| `TextProtocol.EventsRoundTrip` | go/bunsan/broker/worker/protocol/text/raw_reader.go:19-38 | A list of events survives writing and reading exactly when every name is non-empty and free of spaces and line ends |
| `TextProtocol.EventRoundTrip` | go/bunsan/broker/worker/protocol/text/raw_reader.go:19-38 | The same for one event followed by anything |
| `TextProtocol.ReaderRecovers` | go/bunsan/broker/worker/protocol/text/raw_reader.go:19-29 | A line that makes no sense costs that line only |
| `TextProtocol.NamesAreGood` | go/bunsan/broker/worker/protocol/text/raw_reader.go:24-37 | The reader delivers only names that survive |
| `TextProtocol.LeadingBlanks` | go/bunsan/broker/worker/protocol/text/raw_reader.go:24 | Blanks before a line do not count |
| `TextProtocol.RefusedLines` | go/bunsan/broker/worker/protocol/text/raw_reader.go:25-33 | One word or three are refused with their number, and so is a second word that is no base64 |
| `TextProtocol.HelloWorld` | go/bunsan/broker/worker/protocol/text/raw_writer.go:17-36 | The line of the protocol's own tests |
| `TextProtocol.EventReader.ReadRawEvent` | go/bunsan/broker/worker/protocol/text/raw_reader.go:19-38 | One line is consumed, whatever comes of it |
| `TextProtocol.EventWriter.WriteRawEvent` | go/bunsan/broker/worker/protocol/text/raw_writer.go:17-36 | One line is appended |
| `Base64.DecodeOfEncode` | go/bunsan/broker/worker/protocol/text/raw_reader.go:30-33 | Base64 of any bytes decodes to them, whatever line ends follow |
| `Base64.Alphabet` | go/bunsan/broker/worker/protocol/text/raw_writer.go:26-27 | The digits are those of table 1 of RFC 4648 |
| `Base64.QuadIsNumber` | go/bunsan/broker/worker/protocol/text/raw_writer.go:26-27 | Three bytes are written as one number of 24 bits in base 64 |
| `Base64.EncodeGroups` | go/bunsan/broker/worker/protocol/text/raw_writer.go:26-27 | Groups of three bytes are encoded on their own |
| `Base64.EncodeGroup` | go/bunsan/broker/worker/protocol/text/raw_writer.go:26-27 | How a last group of one or two bytes is padded |
| `Base64.DecodesExactly` | go/bunsan/broker/worker/protocol/text/raw_reader.go:30-33 | Exactly text of whole groups decodes, with padding only at its end |
| `BlockFraming.BlocksRoundTrip` | bunsan/common/include/bunsan/asio/block_connection.hpp:20-110 | Reading the concatenation of any written blocks gives exactly those blocks |
| `BlockFraming.CutStream` | bunsan/common/include/bunsan/asio/block_connection.hpp:69-110 | However the stream is cut short, exactly the blocks that have arrived whole are read |
| `BlockFraming.HeaderFits` | bunsan/common/include/bunsan/asio/block_connection.hpp:26-33 | The header has sixteen characters exactly for the sizes of 64 bits |
| `BlockFraming.HeaderRoundTrip` | bunsan/common/include/bunsan/asio/block_connection.hpp:74-80 | A header reads back as its size, through the blanks, sign and prefix the stream parser allows |
| `BlockFraming.HeaderText` | bunsan/common/include/bunsan/asio/block_connection.hpp:26-28 | The header character by character: the number in base 16, right-aligned among blanks |
| `BlockFraming.HeaderForms` | bunsan/common/include/bunsan/asio/block_connection.hpp:74-80 | Blanks, a sign or a prefix, digits, and anything after them: the number that is read |
| `BlockFraming.NoNumber` | bunsan/common/include/bunsan/asio/block_connection.hpp:74-80 | Without a digit in its place there is no number |
| `BlockFraming.HexAlphabet` | bunsan/common/include/bunsan/asio/block_connection.hpp:28 | Which digits are written: lower case |
| `BlockFraming.HexValues` | bunsan/common/include/bunsan/asio/block_connection.hpp:76 | Which characters are digits, in either case |
| `BlockFraming.LeadingBlank` | bunsan/common/include/bunsan/asio/block_connection.hpp:76 | Any blank may come first |
| `BlockFraming.BlockConnection.Write` | bunsan/common/include/bunsan/asio/block_connection.hpp:20-43 | One block is appended and the handler is called once, twice exactly for sizes that do not fit |
| `BlockFraming.BlockConnection.Read` | bunsan/common/include/bunsan/asio/block_connection.hpp:45-102 | One block is read, or the error for a short stream or a bad header |

## Left out

- Fetchers, archivers, makers, builders, process execution, temporary files, file locks and their
  exceptions: foreign programs. They appear as free terms and as the parameter `broken`.
- Crashes in the middle of a critical section, of an upload, or between an archive and its snapshot.
- `ArchiveImport.UnsetFlagExactly`: stated on the state before and after, since no service call
  reaches the operation.
- `status_all_if_changed`: the archive revision changes only on commit, so freshness is not claimed.
- `rename`, downloads and the lists of problems: not implemented, or reads that change nothing.
- `Fnmatch.SameLanguage`: a bracket expression with `[:`, `[.` or `[=`, or with a range that runs
  backwards, has no meaning on either side here; what the Boost library does with a backslash before
  `<`, `>` and other assertion characters lies outside the dialect; characters are those of the C locale.
- Editing an installation directory by hand, the lifetime of an installation, and a meta file that
  collides with the data.
- `PmPublish.SourcePackage.Create`: the recursion over directories, and removing files that are still in use.
- `CurlOptions.OptionSet.Replay`: curl refusing an option while a copy is made, which throws out of the
  copy constructor.
- The `CURLOPT_PRIVATE` back pointer of `easy`, its checks for a null handle, and self-assignment by move.
- `BrokerWorker.Do`: a panic with a nil value, which older Go versions do not report to `recover`;
  failures of writing a status or an error, which the code only logs.
- `WorkerPool.Pool.SetRequests`: a third `DoAll`, which waits for the lock for ever.
- `WorkerPool.EveryRunIsSafe`: `Abort` beyond its `Cancel`, and unsynchronised access to the list of
  workers by two concurrent calls of `Add`.
- The handlers a `buffer_connection` calls: what they see is `received`, `accepted`, `written`,
  `endReported` and `readEndReported`.
- `BlockFraming.BlockConnection.Read`: a size too large to allocate; it ends in the error for a short stream.
- `TextProtocol.EventWriter.WriteRawEvent`: errors of the underlying writer.
- The AMQP reader, reconnection, plugins, configuration, logging, web forms and the other clients: plumbing
  over libraries that are not part of this model.
- Parsing of units and of the grammars built on Boost.Spirit: the semantics of those libraries.
