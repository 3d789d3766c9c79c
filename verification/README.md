# Unistorage: a verified model

A Dafny model of the parts of Unistorage where data can go missing: the sync engine, the
in-memory and local stores with their listings, the path sanitiser, S3 writes with retries,
and the encrypted vault. Each part is modelled branch by branch from the Go source and proved
against properties stated independently of it.

## How the files fit together

- `Prelude`, `Text`, `Keys`: shared values, the Go string and path operations, key normalisation.
- `Listing`, `Cursors`: sorting, token pagination, and clients that follow tokens while the
  store changes.
- `MockStore`: the in-memory driver as a class over two maps, tied to a plain map from
  canonical keys to bytes.
- `LocalWalk`: the pruned directory walk against the filter over the whole tree.
- `Sanitizer`, `Confinement`: judging and cleaning a path, a file system with symbolic links,
  and the check that climbs from a path to the root.
- `SyncEngine`: the transfer and delete phases as a transition system. Any number of workers
  take tasks from the channel and move them through the check of the context, compare, backup,
  read, write and count, one driver call or counter update per step; any driver call may return
  an error, with or without having had its effect; the context may be cancelled at any time. A
  schedule is any sequence of actions. `SyncInvariant` proves what every step keeps,
  `SyncSequential` is the one-after-another reference, `SyncTheorems`, `SyncExact` and
  `SyncPromises` hold the results, `SyncFrame` says which objects a sync can change or remove at
  all, `SyncLeftOut` which names it leaves out, `SyncWitnesses` gives concrete inputs for what
  fails, `SyncPlan` derives jobs from listings, and `Sync` is the imperative engine with one
  worker over two in-memory drivers, proved to do what the reference does or to stop where it cannot
  go on.
- `ObjectServer`, `Retry`, `S3Upload`: a server with open multipart uploads behind a link that
  may lose requests or answers, the retry loop, and the three upload paths.
- `Vault`: the byte layout, its encoder and decoder, and the profile store over it.
- `FormatBytes`: the unit scaling loop on 64-bit integers.

## Premises

Each is forced by the code, and each is a named predicate.

- `SyncPlan.Sane`: source and destination are different stores, and nothing else writes to
  either while the sync runs; what a listing shows is there, once; keys are canonical; prefixes
  and the conflict directory are spellings (`data/`, `\data`) of a canonical name or left empty,
  the conflict directory a relative one.
- `SyncPlan.Separate`: the names of a request do not run into one another. Exactly then its plan
  is a sound job (`SyncPlan.PlanIsSoundExactly`), to which all results about jobs apply.
- `SyncPlan.Tidy`, which implies it: a key that starts with a prefix lies below it (the engine
  strips a bare string prefix; `Names.JoinOfStripExactly` says when that is undone by joining), and
  the destination prefix and the backup directory cannot be mistaken for one another. Results by
  relative name need it; what happens without it is stated exactly in `SyncFrame`.
  `SyncPlan.WellFormed` is `Sane` and `Tidy` together.
- `SyncPlan.Covers` and `SyncPlan.SeesAll`, only where a result says so: a listing does not stop
  short. `SyncLeftOut.EveryNameExactly`, `SyncLeftOut.DeleteMirrorsExactly` and
  `SyncPromises.BackupsSufficeExactly` do without.
- `SyncPromises.Fresh`, only where earlier backups are at stake: the clock does not show the time
  of one. `SyncPromises.BackupsSufficeExactly` and `SyncFrame.BackupKeptExactly` do without.
- `Comparator.Injective`: the hash tells different contents apart.
- `Vault.Lawful`: what was sealed opens under the same key, nonce and additional data (sections
  2.1 and 2.2 of RFC 5116), and what was marshalled unmarshals.
- `Confinement.Canonical`: the root, if it resolves, resolves to itself.
- `ObjectServer.ServerOk`: upload identifiers are handed out in order.

## Where the code does not do what one would expect

Each point has an exact condition and an input on which it happens.

- A run that returns no error need not be complete: a worker that finds the context cancelled
  leaves without recording an error (`SyncExact.NoErrorMeansMirrored`,
  `SyncWitnesses.CancelledWitness`).
- A failed destination listing is taken for an empty one, and then nothing is backed up
  (`SyncPromises.FailedListingLoses`, `SyncWitnesses.FailedListingWitness`).
- A listing that stops short, such as the single page of the S3 driver, hides objects: unseen
  source objects are not copied, and with `--delete` their destination objects are deleted
  (`SyncPromises.FinalName`, `SyncLeftOut.DeleteMirrorsExactly`, `SyncWitnesses.FirstPageWitness`);
  unseen destination objects are overwritten without a backup (`SyncPromises.BackupsSufficeExactly`,
  `SyncWitnesses.HiddenWitness`).
- A prefix is compared as a bare string, so `--delete` reaches beside it: in a sync to `data` it can
  delete `database/x` (`SyncFrame.OutsideKeptExactly`, `SyncWitnesses.DatabaseWitness`). With no key
  beside the prefix nothing outside it is ever touched (`SyncFrame.OutsideStays`).
- Where the conflict directory lies inside the destination prefix, as `data/bak` in `data`, backups
  are taken for extra objects and deleted (`SyncFrame.DeletedExactly`, `SyncFrame.BackupKeptExactly`,
  `SyncWitnesses.NestedWitness`).
- By size and time, two objects of one size whose times differ by more than 292 years pass for the
  same on a machine where converting 2^63 to a 64-bit integer wraps. An object that is listed
  without a time has the zero time, so there it is never updated (`Comparator.MetaExactly`,
  `Comparator.ZeroTimeWitness`, `SyncWitnesses.UnknownAgeWitness`).
- A source name that merely starts with `.conflicts`, or with the conflict directory's name, is
  left out of the sync like the backups themselves (`SyncLeftOut.LeftOut`,
  `SyncLeftOut.EveryNameExactly`, `SyncWitnesses.BakeryWitness`).
- Timestamps have a resolution of one second, so a backup can replace one made by an earlier run
  in the same second (`SyncFrame.BackupKeptExactly`, `SyncWitnesses.SameSecondWitness`).
- A negative retry limit makes `ExecuteWithRetry` return nil without a call, so a write then
  "succeeds" and stores nothing; with any other limit nil means that the bytes are stored
  (`Retry.ExecuteWithRetry`, `S3Upload.Driver.WriteWithOptions`, `S3Upload.NegativeLimitWitness`).
- When the first answer to the completion of an upload is lost, the request made again is refused:
  the object is stored and the write reports failure (`S3Upload.Driver.Request`,
  `S3Upload.LostAnswerWitness`).
- A write with a declared size up to 16 MiB stores that many bytes: a longer stream is cut, and an
  empty one becomes zeros. Above 16 MiB the declared size is ignored and whatever the stream
  yields is stored (`S3Upload.DeclaredSizeExactly`). A stream cut short by an unexpected-EOF error
  counts as ended on the multipart and unsized paths (`S3Upload.TruncatedExactly`). When a
  successful write stores something other than the object it was given to store:
  `S3Upload.SilentlyWrongExactly`, with inputs in `S3Upload.SilentlyWrongWitnesses`.
- When the new vault file cannot be renamed into place, the old one is removed and the rename
  tried once more; if that fails too, the profiles are gone, and later calls succeed on an empty
  vault. It takes no broken disk: the temporary name holds only the process id, so a second vault
  object on the same path can rename it away first (`Vault.FailureKeepsExactly`,
  `Vault.RemovedWitness`).
- A vault header with no rounds or no threads makes key derivation panic. The model counts that as
  a failed call (`Vault.PanicsExactly`).

## Model

| member | source | states |
|---|---|---|
| SyncInvariant.RunInv | pkg/sync/sync.go:200-310 | every state of every schedule keeps the invariant: who holds which task, the destination as a function of where each task stands and what was deleted, and, while no error is recorded, the counters as the sum of what the tasks have added |
| SyncInvariant.AdvancePhase | pkg/sync/sync.go:223-285 | a driver call that does not return an error never makes a task fail for want of an object, and each step brings the task closer to its end |
| SyncInvariant.AdvanceDst | pkg/sync/sync.go:246-276 | a worker's step changes the destination only at the task's own path or at its backup name |
| SyncTheorems.ScheduleIndependence | pkg/sync/sync.go:200-310 | for any number of workers and any interleaving a completed run leaves the destination and counters of processing the tasks one after another; only the order of the conflict list may differ |
| SyncTheorems.UncancelledIsComplete | pkg/sync/sync.go:219-293 | without cancellation, or when the delete loop has a name to look at, no error means that every task was done |
| SyncTheorems.CompleteIsMirrored | pkg/sync/sync.go:219-285 | a completed checksum run has every source object at its destination path |
| SyncTheorems.NothingLost | pkg/sync/sync.go:240-276 | up to the delete phase, with workers failing or stopping anywhere and failed calls having their effect or not, each object of a protected job whose backups clash with nothing is at its own path or in the backup the run made of it |
| SyncTheorems.FailuresBounded | pkg/sync/sync.go:223-275 | a worker that fails or finds the context cancelled takes no further task: in no state are more tasks failed or dropped than workers have stopped |
| SyncTheorems.DryRunTouchesNothing | pkg/sync/sync.go:240-306 | no state of any dry run differs from the start at the destination |
| SyncTheorems.DryRunPredicts | pkg/sync/sync.go:240-310 | a dry run reports the counts and bytes that the real run then reports, under any two schedules and worker counts |
| SyncTheorems.StatsConservation | pkg/sync/sync.go:228-308 | on completion the tasks skipped are those found unchanged, those updated are the others listed at the destination and those transferred the others not listed there; the bytes of each kind are their sizes; conflicts equal updates with backups on and zero otherwise; deletions equal the orphaned names |
| SyncTheorems.ConflictsAreBackups | pkg/sync/sync.go:246-260 | on completion the conflict list has one entry for each update that was backed up, among them, for each, the backup made of it, which holds what the destination had there |
| SyncTheorems.CompleteTask | pkg/sync/sync.go:223-285 | after a completed run each task's path holds the source bytes, or what it held before if the comparison found nothing to do |
| SyncExact.CompletedRunExists | pkg/sync/sync.go:200-313 | every sound job has a schedule that completes it, so the results about completed runs are not empty |
| SyncExact.CancelledRunReportsSuccess | pkg/sync/sync.go:223-226 | there is a cancelled run that does nothing and returns no error |
| SyncExact.NoErrorMeansMirrored | pkg/sync/sync.go:219-313 | success implies the mirror if and only if the context cannot be cancelled, or the delete loop has a name to look at, or the destination was a mirror already |
| SyncExact.NothingLostExactly | pkg/sync/sync.go:240-276 | before the delete phase nothing is ever lost if and only if each task that meets other bytes was listed at the destination and is backed up unless skipped, and no backup can fall on an object with other bytes |
| SyncSequential.ProcessFirstOk | pkg/sync/sync.go:223-285 | processing the first n tasks in order leaves exactly those tasks done, with destination and counters to match |
| SyncSequential.DeleteAll | pkg/sync/sync.go:296-310 | removing all orphans at once touches no task path and no backup, and leaves what deleting them one by one leaves |
| SyncPlan.BuildDestMap | pkg/sync/sync.go:132-153 | the loop over the destination listing yields the map of live relative names, which `SyncPlan.FilteredExactly` spells out |
| SyncPlan.BuildTasks | pkg/sync/sync.go:162-198 | the loop over the source listing yields one task per live object, in order, and the set of their names, which `SyncPlan.FilteredExactly` spells out |
| SyncPlan.FilteredExactly | pkg/sync/sync.go:133-184 | under any conflict directory, the source names and the destination names are the stripped names of the listed objects, directories aside, that start neither with `.conflicts` nor with the cleaned name of the conflict directory |
| SyncPlan.WorkerCount | pkg/sync/sync.go:109-217 | at least one worker is started and, beyond that one, no more than there are tasks; within those limits as many as asked for, and four when no positive number is |
| SyncPlan.DestName | pkg/sync/sync.go:138-153 | a name is in the destination map if and only if the name is live and the listing shows it; it then maps to that object |
| SyncPlan.PlannedTask | pkg/sync/sync.go:171-198 | every task belongs to a live listed source object, with the relative name and destination path that go with it |
| SyncPlan.TaskPlanned | pkg/sync/sync.go:171-198 | every live listed source object has a task |
| SyncPlan.PlanIsSoundExactly | pkg/sync/sync.go:132-198 | a request, whatever lies beside its prefixes and wherever its conflict directory is, is planned into a sound job if and only if every source object strips to a proper name of its own, the destination object found under it is the one to be written, and no backup falls on either |
| SyncPlan.PlanIsSound | pkg/sync/sync.go:132-198 | with no key beside a prefix and the conflict directory out of the way, that always holds: destination paths and backup names never clash, orphans are nobody's destination and nobody's backup |
| SyncPlan.MapHoldsLast | pkg/sync/sync.go:138-153 | of destination objects that strip to one name, the map holds the one listed last |
| SyncPromises.NoLossBeforeDelete | pkg/sync/sync.go:246-275 | with the destination listed in full, backups on and a fresh clock, every object the destination held survives up to the delete phase, under its own name or a backup that tells where it was |
| SyncPromises.BackupsSufficeExactly | pkg/sync/sync.go:246-275 | with backups on, nothing is lost before the delete phase if and only if no backup can fall on an object with other bytes and the destination listing hides no object about to be overwritten with other bytes |
| SyncPromises.FailedListingLoses | pkg/sync/sync.go:125-130 | after a failed destination listing nothing is lost if and only if no live name the source shows holds different bytes on the two sides |
| SyncPromises.MirrorPostcondition | pkg/sync/sync.go:138-310 | with complete listings, an uncancelled checksum run without error has put every live source object at the destination; with delete, the live names and bytes agree in both directions |
| SyncPromises.FinalName | pkg/sync/sync.go:138-310 | whatever the listings show, an uncancelled run without error leaves each name that starts neither with `.conflicts` nor with the conflict directory's name with the source bytes if the source listing shows it, unless size and time are compared and look the same; with nothing if only the destination listing does and delete is on; and as it was otherwise |
| SyncPromises.DestinationStaysNamed | pkg/sync/sync.go:188-191 | a run keeps the destination on canonical keys, none of them beside its prefix |
| SyncPromises.SecondRunIsIdle | pkg/sync/sync.go:138-198 | after a completed checksum sync the same sync, at whatever time, changes nothing at any point and ends with every task skipped and every other counter zero |
| SyncPromises.BackupsUntouched | pkg/sync/sync.go:148-151 | with a fresh clock no state of a run has changed an earlier backup, and no backup is on the delete loop's list |
| SyncPromises.BackupsSurvive | pkg/sync/conflict.go:70-78 | over any sequence of runs to one prefix with one conflict directory, each finished, failed or abandoned, every backup keeps its bytes for ever after |
| SyncFrame.KeptExactly | pkg/sync/sync.go:219-310 | an object is the same in every state of every run if and only if no task will write other bytes over it, no new backup of other bytes can take its name, and it is not on the delete loop's list |
| SyncFrame.RemovedExactly | pkg/sync/sync.go:295-310 | some run removes an object if and only if it is on the delete loop's list |
| SyncFrame.DeletedExactly | pkg/sync/sync.go:138-310 | a sync can remove an object if and only if delete is on and it is no dry run, the listing shows the object as the last of its stripped name, that name is live, and no source object bears it |
| SyncFrame.OutsideStays | pkg/sync/sync.go:138-310 | no state of any run has changed, made or removed anything that is neither below the destination prefix nor under the backup directory |
| SyncFrame.OutsideKeptExactly | pkg/sync/sync.go:144-147 | with keys beside the prefix, an object out there is left alone by every run if and only if it is not on the delete list |
| SyncFrame.FilteredKeptExactly | pkg/sync/sync.go:148-151 | under any conflict directory, no run removes a destination object whose name starts with `.conflicts` or with the conflict directory's name, and every run leaves it alone if and only if no new backup of other bytes can take its place |
| SyncFrame.BackupKeptExactly | pkg/sync/conflict.go:29-74 | an object under the backup directory is the same in every state of every run if and only if no new backup of other bytes can take its name, it is not on the delete list and no task writes over it; the last two never happen with the directory out of the way |
| SyncLeftOut.LeftOut | pkg/sync/sync.go:181-184 | a name that starts like a conflict directory without lying under the backup directory is left alone by every state of every run |
| SyncLeftOut.EveryNameExactly | pkg/sync/sync.go:171-198 | every successful run mirrors every source name that is not under a conflict directory if and only if none is left behind by the filter or by a source listing that stops short |
| SyncLeftOut.DeleteMirrorsExactly | pkg/sync/sync.go:295-310 | every successful delete run makes the live names equal if and only if no name the source listing does not show is in the source and seen at the destination, or unseen and different |
| SyncLeftOut.DeleteNeedsListing | pkg/sync/sync.go:125-310 | with the source listed in full, that is exactly when the destination was listed or had no extra live name |
| SyncWitnesses.AgainExists | pkg/sync/sync.go:119-153 | after any run the same sync can be asked for again at once, so the result about second runs is not empty |
| SyncWitnesses.FailedListingWitness | pkg/sync/sync.go:125-130 | a well-formed request whose destination listing fails and which loses bytes |
| SyncWitnesses.CancelledWitness | pkg/sync/sync.go:223-226 | a sound cancellable job of which some run succeeds without mirroring |
| SyncWitnesses.BakeryWitness | pkg/sync/sync.go:181-184 | with the conflict directory `bak`, `bakery/list.txt` never reaches the destination |
| SyncWitnesses.OldBackupWitness | pkg/sync/sync.go:148-151 | with the conflict directory `bak` and delete on, `.conflicts/a` is not deleted |
| SyncWitnesses.FirstPageWitness | pkg/storage/s3/s3.go:319-326 | with a source listing that stops short and delete on, every successful run deletes an object both sides had |
| SyncWitnesses.HiddenWitness | pkg/sync/sync.go:138-153 | a destination listing that comes back short lets the run overwrite an object without a backup |
| SyncWitnesses.DatabaseWitness | pkg/sync/sync.go:144-147 | a delete run to `data/` can remove `database/x` |
| SyncWitnesses.NestedWitness | pkg/sync/sync.go:148-151 | with the conflict directory `data/bak`, a delete run to `data` can remove any earlier backup |
| SyncWitnesses.UnknownAgeWitness | pkg/sync/comparator.go:116-124 | an object listed without a time is never brought over by a run that compares size and time, where conversions wrap |
| SyncWitnesses.SameSecondWitness | pkg/sync/conflict.go:29-74 | a backup made in the same second is replaced by the next |
| Sync.BackupConflict | pkg/sync/conflict.go:23-78 | copies the object to its stamped name under the conflict directory, or reports the error of the first driver call that fails and leaves the destination as it was |
| Sync.Compare | pkg/sync/comparator.go:96-133 | the verdict on metadata or hashes, and the error when an object cannot be read |
| Sync.CompareTask | pkg/sync/sync.go:228-238 | the verdict of the reference, or an error exactly when an object to be hashed is missing |
| Sync.SyncStats.SaveConflict | pkg/sync/sync.go:245-260 | does the conflict step of the reference exactly when the object to be backed up is there and its backup has a name, and nothing otherwise |
| Sync.SyncStats.CopyObject | pkg/sync/sync.go:262-276 | copies exactly when the source object is there and its destination path is a key, and changes nothing otherwise |
| Sync.SyncStats.ProcessOne | pkg/sync/sync.go:223-285 | one round of the worker loop: it succeeds exactly when the task can be carried through, and does what the reference step does; when it fails, nothing has changed but at most a backup made and counted |
| Sync.SyncStats.ProcessTasks | pkg/sync/sync.go:219-293 | the task loop succeeds if and only if each task finds what it needs when its turn comes, and then leaves what the reference leaves; otherwise it ends with an error at the first that does not, having done the tasks before it and at most that task's own backup |
| Sync.SyncStats.DeleteExtraneous | pkg/sync/sync.go:295-310 | the delete loop, in any order of the names, removes exactly the orphans and counts them |
| Sync.SyncStats.DeletePhase | pkg/sync/sync.go:295-310 | what the reference leaves after its task loop becomes what it leaves at the end |
| Sync.MakePlan | pkg/sync/sync.go:119-198 | a source that cannot be listed ends the sync with that error; otherwise listing both drivers, a destination that cannot be listed counting as empty, yields the plan of the request about them, which is well-formed when the prefixes and the conflict directory allow it |
| Sync.Run | pkg/sync/sync.go:87-314 | a whole sync over any two in-memory drivers succeeds if and only if each task finds what it needs when its turn comes, always so for a request whose names do not run into one another, and ends with the destination and counters of the sequential reference; otherwise it stops at the first task that does not |
| Names.ListedPrefix | pkg/sync/sync.go:90-91 | a prefix in any spelling with a canonical clean form is listed under that form |
| Names.StripOfJoin | pkg/sync/sync.go:144-147 | stripping the prefix a name was joined to gives the name back |
| Names.JoinOfStripExactly | pkg/sync/sync.go:143-191 | joining what was stripped gives the path back if and only if the path lies below the prefix; `database` under the prefix `data` does not |
| Names.JoinInjective | pkg/sync/sync.go:188-191 | different relative names have different destination paths |
| Names.BackupsAreFiltered | pkg/sync/sync.go:133-136 | backups go to the directory the listing filter skips |
| Names.BackupPathCanonical | pkg/sync/conflict.go:71-72 | a backup of a canonical path has a canonical name |
| Names.BackupInjective | pkg/sync/conflict.go:28-29 | a backup name determines both the path it saves and the time it was made |
| Names.LiveIsNoBackup | pkg/sync/sync.go:148-151 | no live name below the destination prefix is under the conflict directory |
| Names.LiveExactly | pkg/sync/sync.go:133-151 | the names that take part are those that start neither with `.conflicts` nor with the cleaned name of the conflict directory, if it has one |
| Names.BackupSpelledOut | pkg/sync/conflict.go:24-72 | a backup goes below `.conflicts`, or below the directory given, under the path it saves followed by a dot, the time and `.conflict` |
| Names.CleanWitness | pkg/sync/sync.go:90-91 | slashes of either kind around a prefix make no difference |
| Comparator.MetaExactly | pkg/sync/comparator.go:116-132 | by size and time, on 64-bit durations: objects pass for the same if and only if their sizes agree and their times are within 1000000000 ns, or at least 2^63 - 512 ns apart where conversions wrap; for an update if and only if the sizes agree, the source is newer and they do not pass for the same; agreement is mutual and different sizes conflict both ways |
| Comparator.ZeroTimeWitness | pkg/storage/s3/s3.go:368-371 | an object listed without a time passes for the same as any object of its size, where conversions wrap |
| FormatBytes.Scale | pkg/sync/sync.go:73-84 | for every int64 of at least 1024 the loop never overflows and ends with the size of the exp-th unit, KiB to EiB, which is the largest not above the count |
| Keys.NormalizeCanonical | pkg/storage/mock.go:37-40 | a normalised key is empty or canonical: no empty, "." or ".." segment |
| Keys.NormalizeIdempotent | pkg/storage/mock.go:37-40 | normalising twice is normalising once |
| Keys.CanonicalFixed | pkg/storage/mock.go:37-40 | canonical keys are left alone |
| Keys.SpellingsOfOneKey | pkg/storage/mock.go:37-40 | slashes either way, doubled slashes and "." make no difference to a key, a segment and the ".." after it cancel, and ".." at the root goes |
| Text.CleanRules | pkg/storage/mock.go:38 | the rules of path.Clean, one by one: empty segments and "." go, a segment and the ".." after it cancel, ".." at the root goes |
| Text.LessExactly | pkg/storage/mock.go:153-155 | the order of listings: a proper prefix first, otherwise the smaller character at the first place where two strings differ |
| Text.OrderWitness | pkg/storage/mock.go:153-155 | `a` comes before `b` and not after it, and before `a/b`, which `a.b` also comes before |
| MockStore.ReadsLastWrite | pkg/storage/mock.go:48-210 | after any operations, under any spelling of a key, a read finds the last write or delete to it, and the store stays on canonical keys |
| MockStore.MockDriver.Read | pkg/storage/mock.go:48-62 | reads the bytes under the normalised key, or reports that there are none |
| MockStore.MockDriver.Stat | pkg/storage/mock.go:213-228 | finds the record of the key, its time included, exactly when the object exists, with the size of its bytes |
| MockStore.MockDriver.WriteWithOptions | pkg/storage/mock.go:70-125 | stores the bytes and a record of their size and the time under the normalised key, or fails with the error of the first check that does; nothing else changes |
| MockStore.MockDriver.Delete | pkg/storage/mock.go:198-210 | removes the key from both maps, and succeeds when it is absent |
| MockStore.MockDriver.ListWithOptions | pkg/storage/mock.go:137-195 | the first maxKeys matching keys past the token in string order, all of them without a limit, with the record of each; whether keys are left over, and the last key given if so |
| MockStore.MockDriver.List | pkg/storage/mock.go:128-134 | the records of all matching keys and no others, in string order |
| Listing.SortKeys | pkg/storage/mock.go:153-155 | the keys, each once, in string order |
| Listing.FindStart | pkg/storage/mock.go:157-168 | the scan stops at the first key past the token, or at the end when there is none |
| Listing.Paginate | pkg/storage/mock.go:157-194 | the page cut from a sorted listing, with its token |
| Listing.PageIsRight | pkg/storage/mock.go:157-194 | a page holds the first maxKeys keys past the token in string order, or all if there are no more or the limit is not positive; it is truncated if and only if keys are left over, which then all come after its token |
| Listing.TokenAdvances | pkg/storage/mock.go:175-183 | a truncated page's token is non-empty, lies past the one asked with, and resumes exactly where the page stopped |
| Listing.FollowNeverRepeats | pkg/storage/mock.go:157-194 | pages taken from a listing that changes in between are strictly sorted overall, so no key comes twice |
| Listing.FollowMissesNothing | pkg/storage/mock.go:157-194 | a key that matched throughout has been handed out once the last page has come |
| Listing.FollowInventsNothing | pkg/storage/mock.go:157-194 | every key handed out matched when its page was taken |
| Listing.FollowIsStable | pkg/storage/local/local.go:268-300 | pages taken from a listing that changes in between: no repeats, no inventions, nothing missed that was listed throughout |
| Listing.FollowUnchanged | pkg/storage/local/local.go:268-300 | with nothing changing, the pages put together are the rest of the unpaged listing |
| Cursors.CursorsAreStable | pkg/storage/mock.go:137-195 | following tokens from the start of a store that changes arbitrarily between pages, at any page size: no repeats, no inventions, nothing missed that matched throughout |
| Cursors.LocalCursorsAreStable | pkg/storage/local/local.go:197-307 | the same for the local driver over directory trees that change between pages |
| Cursors.PagesConcatenate | pkg/storage/mock.go:137-195 | with no changes the pages concatenate to the unpaged listing after at most one request more than there are keys |
| LocalWalk.PrunedHoldsNothing | pkg/storage/local/local.go:227-233 | a skipped subtree holds no entry that starts with the prefix |
| LocalWalk.Visit | pkg/storage/local/local.go:208-258 | the walk callback on an entry and what lies below it appends exactly the matching entries |
| LocalWalk.Walk | pkg/storage/local/local.go:208-258 | for every tree and prefix the pruned walk finds what filtering the whole tree finds, in the same order |
| LocalWalk.ChildEntriesDistinct | pkg/storage/local/local.go:216-225 | no relative path is listed twice |
| LocalWalk.ListedIsNode | pkg/storage/local/local.go:245-255 | an entry is listed if and only if its path leads down the tree to a node, with that node's size and time, and as a directory if and only if the node is one |
| LocalWalk.ListWithOptions | pkg/storage/local/local.go:197-307 | the first maxKeys matching paths past the token in string order, with the record of each; what is listed is what `LocalWalk.ListedIsNode` says |
| Sanitizer.DecodedOnce | pkg/storage/local/sanitizer.go:58-71 | a name protected from decoding comes back as it is, escapes in it and all |
| Sanitizer.UnescapeExactly | pkg/storage/local/sanitizer.go:58-71 | decoding yields a name if and only if the text writes it character by character, as it is or, "%" only so, by two hexadecimal digits in either case |
| Sanitizer.DeviceExactly | pkg/storage/local/sanitizer.go:18-93 | a segment is refused as a device if and only if it is CON, PRN, AUX, NUL, COM1-9 or LPT1-9 in any case, alone or followed by a dot and anything but a line break |
| Sanitizer.AcceptableExactly | pkg/storage/local/sanitizer.go:52-96 | the text of a path is accepted if and only if it decodes to one without null bytes, colons, two dots in a row, and device names for segments |
| Sanitizer.CleanKeeps | pkg/storage/local/sanitizer.go:98-103 | without ".." in any segment cleaning never pops: it only drops empty and "." segments |
| Sanitizer.NeverLeaves | pkg/storage/local/sanitizer.go:105-108 | the traversal tests on the cleaned path never fire |
| Sanitizer.JoinedSegments | pkg/storage/local/sanitizer.go:110-112 | joining with the root and cleaning is the root followed by the segments |
| Sanitizer.CheckSegments | pkg/storage/local/sanitizer.go:81-96 | passes exactly the segments without ".." that are not reserved device names, and names a fault that is there |
| Sanitizer.Sanitize | pkg/storage/local/sanitizer.go:52-127 | accepts exactly when the decoded text is acceptable and no link on the way leaves the root; the result is "/" and the segments of the root and of the decoded path, empty ones and "." left out; otherwise the error of the first test that fails; the boundary error is never returned |
| Sanitizer.SanitizedStaysInside | pkg/storage/local/sanitizer.go:120-126 | an accepted path, or the directory of one that does not exist yet, resolves inside the root however many links are followed |
| Confinement.RelTest | pkg/storage/local/sanitizer.go:149-152 | the test on the relative path holds exactly when the target is outside the base |
| Confinement.LengthTest | pkg/storage/local/sanitizer.go:158-161 | the length test stops the climb exactly at the root |
| Confinement.VerifySymlinkConfinement | pkg/storage/local/sanitizer.go:130-165 | visits exactly the paths from the target up to the root and accepts exactly when each of them passes; in particular a link reached through plain directories is accepted if and only if the place its text leads to, from "/" or from its own directory, lies below the root, and a target without links on the way if and only if the way does not run into a file |
| Confinement.CheckLink | pkg/storage/local/sanitizer.go:142-156 | one path passes when it is absent, no link, or a link that resolves inside the root; what links resolve to is said by `Confinement.StraightLinkJudged` |
| Confinement.ConfinedMeansInside | pkg/storage/local/sanitizer.go:129-165 | an accepted path that resolves at all resolves below the root, whatever the link limits |
| Confinement.StraightLinkJudged | pkg/storage/local/sanitizer.go:142-152 | a link whose way and whose text lead through plain directories, ".." among them, is accepted if and only if the cleaned place lies below the root, and rejected if nothing is there |
| Confinement.NoLinksJudged | pkg/storage/local/sanitizer.go:133-156 | a target with no link on the way is accepted if and only if the way does not run into a file |
| Confinement.LinkWitnesses | pkg/storage/local/sanitizer.go:142-152 | of two links with one text below the root, the absolute one leaves it and is rejected, the relative one stays and is accepted |
| ObjectServer.AtMostOnce | pkg/storage/s3/retry.go:86-118 | however often a request is repeated and whatever is lost, the server ends as after one delivery, or none if none arrived |
| ObjectServer.AnsweredOnce | tests/e2e/harness/s3_mock.go:301-378 | a request that was answered took effect exactly once |
| ObjectServer.OnlyEmptyUploads | tests/e2e/harness/s3_mock.go:277-283 | repeating the opening of an upload leaves behind only empty uploads |
| Retry.ExecuteWithRetry | pkg/storage/s3/retry.go:87-118 | at most MaxRetries+1 calls, every one but the last failed transiently; nil exactly when the last call succeeded or the limit is negative; an error exactly when it failed for good or was the last try; cancelled exactly when the context, looked at before each call and after each sleep, is found done; every sleep is the share of its own backoff that the generator draws |
| Retry.TotalSleep | pkg/storage/s3/retry.go:103-109 | sleeps within their caps add up to no more than their number times MaxDelay |
| Retry.BackoffDoubles | pkg/storage/s3/retry.go:103-105 | the backoff starts at the base delay and doubles until it reaches the limit |
| Retry.DefaultCaps | pkg/storage/s3/retry.go:24-105 | the caps that the standard settings lead to, in nanoseconds |
| Retry.EndsThere | pkg/storage/s3/retry.go:87-118 | a series on a link that gets through within the budget ends at the first call that does, with the answer given there |
| Retry.FractionInCap | pkg/storage/s3/retry.go:105-109 | the jittered duration is the greatest whole number of units in the drawn fraction, between zero and the cap |
| S3Upload.FaithfulExactly | pkg/storage/s3/s3.go:162-190 | a successful write stores the whole object it reads from if and only if the reader delivered all of it and, up to the threshold, its length is the declared one |
| S3Upload.SilentlyWrongExactly | pkg/storage/s3/s3.go:162-190 | a successful write stores something else if and only if a declared size up to the threshold cuts a longer object or meets an empty one, or on the other paths the reader was cut short |
| S3Upload.TruncatedExactly | pkg/storage/s3/s3.go:162-190 | a stream cut short by an unexpected EOF is accepted if and only if the size is unknown or above the threshold, or enough has come |
| S3Upload.DeclaredSizeExactly | pkg/storage/s3/s3.go:162-174 | the stored object has the declared size if and only if that is up to the threshold or the stream happens to have it |
| S3Upload.SilentlyWrongWitnesses | pkg/storage/s3/s3.go:162-190 | inputs on which a write succeeds and stores the wrong bytes |
| S3Upload.PartsAreFull | pkg/storage/s3/s3.go:252-297 | parts are numbered 1 to n without gaps, all but the last are full, the last is not empty |
| S3Upload.PartsAreTheStream | pkg/storage/s3/s3.go:252-310 | the parts put together are the stream, whether the server takes the listed ones or all it was sent |
| S3Upload.Completed | pkg/storage/s3/s3.go:299-310 | completing stores the whole stream and closes the upload, or is refused and changes nothing |
| S3Upload.SharedKeys | pkg/storage/s3/s3.go:108-111 | two paths share a key if and only if they are the same with slashes for backslashes but for one leading slash; a canonical path is its own key |
| S3Upload.Driver.Request | pkg/storage/s3/retry.go:87-118 | one retried request takes effect once or not at all; on a link that recovers within the budget it takes effect, and is granted if and only if the server grants it and, for a completion, no answer to it was lost before |
| S3Upload.LostAnswerWitness | pkg/storage/s3/s3.go:299-313 | a completion whose first answer is lost stores the object and reports failure |
| S3Upload.Driver.PutSingleObject | pkg/storage/s3/s3.go:192-208 | the object is the old one or the whole new one; on success the new one; on a link that recovers within the budget it succeeds |
| S3Upload.Driver.CreateMultipart | pkg/storage/s3/s3.go:211-233 | a fresh empty upload is open on success, and nothing but empty uploads is added in any case |
| S3Upload.Driver.SendParts | pkg/storage/s3/s3.go:252-297 | the chunking loop uploads exactly the parts of the stream and lists them 1 to n; on a link that recovers within the budget it fails only if the reader breaks |
| S3Upload.Driver.Abort | pkg/storage/s3/s3.go:237-250 | unless the request is lost, no upload is left with parts in it |
| S3Upload.Driver.UploadMultipart | pkg/storage/s3/s3.go:210-317 | the object is the old one or the whole stream; on success the stream, with no parts left behind; on a link that recovers and loses no answer it succeeds unless the reader breaks, or there is no part and the server is strict |
| S3Upload.Driver.WriteWithOptions | pkg/storage/s3/s3.go:147-190 | on all three paths, under any pattern of lost requests and answers: the key holds the old object or the whole new one and no other object changes; nil means the new one; on a link that recovers within the budget and loses no answer, it succeeds if and only if the reader allows it, but for an upload without parts to a strict server |
| Vault.WordOut | pkg/vault/vault.go:131-134 | reading back a big-endian word gives the number |
| Vault.WordIn | pkg/vault/vault.go:231-234 | writing the number read from four bytes gives the bytes |
| Vault.LayoutInjective | pkg/vault/vault.go:221-241 | no two envelopes share a layout |
| Vault.ParseOfLayout | pkg/vault/vault.go:112-147 | decoding an encoded envelope gives the envelope back, every field of it |
| Vault.EncodePayload | pkg/vault/vault.go:221-241 | the buffer filled field by field is the layout of the envelope: byte by byte "UNIS", 1, time and memory with the most significant byte first, threads, salt, nonce, ciphertext |
| Vault.DecodePayload | pkg/vault/vault.go:112-147 | a file is taken exactly when it is at least 42 bytes long and starts with "UNIS" and 1; out comes the envelope its bytes spell, most significant byte first |
| Vault.HeaderWitness | pkg/vault/vault.go:225-236 | the fourteen bytes that the standard settings put first |
| Vault.OpenedExactly | pkg/vault/vault.go:103-178 | a file opens to these profiles if and only if it starts right, names a round and a thread, and its ciphertext opens, under the key derived with its own settings and salt, its nonce and its first five bytes, to text that unmarshals to them |
| Vault.SealedOpens | pkg/vault/vault.go:183-241 | what is saved under a passphrase reads back under it |
| Vault.FileVault.LoadStore | pkg/vault/vault.go:103-178 | yields the profiles the file holds under the passphrase, or the error of the first step that fails, an unreadable file and a header on which key derivation panics among them |
| Vault.FileVault.SaveStore | pkg/vault/vault.go:181-258 | succeeds if and only if everything up to the temporary file comes off and one of the two renames does; the file then is the standard header, salt, nonce and the sealed profiles; if the save fails, the file is as it was, or is gone when the old one was removed |
| Vault.FileVault.SaveRemoteBytes | pkg/vault/vault.go:261-272 | does to the contents what an update does to a plain map; a failed save leaves the file as it was, or removes it and with it the profiles |
| Vault.FileVault.GetRemoteBytes | pkg/vault/vault.go:282-298 | answers what a look-up in a plain map answers |
| Vault.FileVault.ListRemotes | pkg/vault/vault.go:308-326 | the names of the plain map, in string order |
| Vault.FileVault.DeleteRemote | pkg/vault/vault.go:329-347 | does what a removal does to a plain map, failing like an update; an absent name is no error and no write |
| Vault.FileVault.PerformAll | pkg/vault/vault.go:261-347 | a client making any calls one after another gets the answers of a plain map that a failed save may leave as it is or empty, and leaves the file holding that map; on a file the passphrase does not open every call fails and the file stays |
| Vault.VaultIsAMap | pkg/vault/vault.go:103-347 | over any history under one passphrase, with reads and saves failing in any way, every answer is the plain map's and the file holds that map |
| Vault.AnswersTellLastSaved | pkg/vault/vault.go:261-347 | over any history a look-up answers with what the last save of the name put there, unless it was deleted since or lost with the file in a failed save; a listing names, in string order, just the names that have a profile |
| Vault.FailureKeepsExactly | pkg/vault/vault.go:250-255 | a failed call keeps the profiles if and only if it did not remove the file on the way to a failed save, or there were none |
| Vault.RemovedWitness | pkg/vault/vault.go:250-255 | a save that fails after the old file was removed loses the one profile, and the next call lists an empty vault |
| Vault.UnreadableStays | pkg/vault/vault.go:103-178 | under a passphrase that does not open the file every call fails, with one error whenever the file can be read, and the file stays as it is |
| Vault.PanicsExactly | pkg/vault/vault.go:97-151 | a file with a proper layout makes key derivation panic, whatever the passphrase, if and only if its header names no rounds or no threads |

## Left out

- The AWS SDK, HTTP, sockets, process handling and real file-system calls: stores, the server and the file system are values.
- Concurrency below the level of driver calls and counter updates: the locks of the drivers and the vault make each a single step. Other writers to either store during a run; a second vault object on the same file appears only as the renames it makes fail.
- Torn writes: a driver call that returns an error has had its effect wholly or not at all.
- Sync.Run: one worker over in-memory drivers, whose calls fail only for want of an object or a key; other failures, cancellation and many workers are in the transition system.
- The recursion guard and syncs within one store (`pkg/sync/sync.go:93-107`).
- The absolute conflict directory (`pkg/sync/conflict.go:44-68`) and directories such as "\\" whose clean form is empty, for which the filter and the backup directory differ.
- Durations are rounded in floating point only where that reaches 2^63; smaller magnitudes are compared unrounded, which no test against one second can tell. The second-run result is for checksum mode, since a written object's time is the time of writing.
- The declared size of a write is ignored by the in-memory driver and therefore by the sync model.
- Paging adds a start index and a limit without 64-bit overflow.
- Content types, metadata and entity tags; a reader that fails while the in-memory driver copies from it.
- The non-recursive local listing (`pkg/storage/local/local.go:241-243`), entries that vanish during the walk, and the local driver's rename fallbacks (`pkg/storage/local/local.go:170-181`).
- Strings are sequences of characters ordered by character; Go compares bytes, which is the same order on valid UTF-8. In the sanitiser a character stands for a byte.
- The sanitiser is modelled with "/" as the separator; the repeated attempts of Lstat are not modelled, and the file system does not change during a check.
- How the S3 server pages its listing; the model has listings that stop short anywhere.
- The overwrite check of the S3 driver (`pkg/storage/s3/s3.go:154-160`), the 32-bit part number and the service's limit on parts.
- IsTransient is the flag on a refused call; which errors it recognises is not modelled. Backoff is computed over the reals.
- Cryptographic strength, key derivation on header parameters that exhaust memory or time, memory wiping, and JSON details such as invalid UTF-8 in names or a vault whose JSON text is `null`.
- The daemon, the command line, help and version output: routing and printing.
