# Verified models of SlothfulChat's protocols

Dafny models of the five stateful cores of the web client, with machine-checked
proofs about them. Each core is a step system: one atomic step per stretch of code
between two awaits, because the wasm worker and the page are single-threaded. What
the platform may do (fail, tear a write, answer late, hand out any chunk) is a
parameter of the step, so every theorem over runs holds for every platform
behaviour and every interleaving.

* **The OPFS mirror** — the in-memory file tree (`Paths`, `MemFs`) and what each of its
  operations means to a caller (`TreeLaws`), the dirty queue and its single flusher
  (`Durability`, `Mirror`) and what every answer of OPFS does to it (`MirrorProgress`).
  Over all runs: the inclusion invariant for files (`MirrorSafety`) and for directories
  (`MirrorDirs`), the flush verdict (`FlushVerdict`), when a drained mirror equals the
  tree (`MirrorConvergence`), and the one kind of rename that breaks it all
  (`MirrorClobber`). `Store` has the same code as a class over mutable globals, loops
  included, proved to take exactly the protocol's steps; `Hydration` is the boot-time
  load.
* **The account registry** — the two-file commit of `accounts.toml`, crash by crash
  and byte by byte (`SyncAccess`, `Commit`, and the class form `ConfigStore`), what the
  attempts before a session's first commit do to the previous registry (`FirstCommit`),
  what a failed backup refresh costs (`FailedRefresh`), when a sync that has nothing to
  do may report success (`SyncVerdict`), and the boot sweep that deletes databases on its
  word (`Registry`).
* **Calls** — the WebRTC engine with its suspended operations as explicit frames
  (`CallState`, `CallEngine`). Over all interleavings: ownership and teardown
  (`CallEngineSafety`, `CallEngineRuns`), what it tells its owner (`CallEngineLog`) and
  that the last word is what is sent (`CallEngineTold`), one setup per call, its one
  description and consent for the camera (`CallEngineSetup`), what moves the state
  (`CallEngineProgress`). Step by step: the stages of the setup (`CallEngineStages`) and
  the device and share operations (`CallEngineDevices`). The engine as the object it is
  (`AudioCall`), the bridge that hangs up (`CallBridge`), the popup's RPC relay
  (`PopupRpc`).
* **The service worker and the crypto pool** — cache ownership and request roles
  (`SwCache`), the install transaction (`ShellInstall`), what one install and one request
  do, file by file (`ShellLaws`), deploy after deploy (`ShellUpdates`); the one-worker
  crypto scheduler (`CryptoPool`) and how its jobs end (`CryptoLedger`).
* **The streaming tar reader** — resumable parsing over arbitrary chunking
  (`TarReader`), extension attachment (`TarExtensions`) and whose extension is whose
  (`TarAttribution`), the member stream as an object (`TarMembers`), sparse expansion
  (`TarSparse`).

`dafny verify dfyconfig.toml` checks everything.

## What the proofs found

These hold of the code as it is; each has a concrete counterexample or an exact
condition below.

* A rename between a path and one of its ancestors can overwrite a key whose turn is
  still to come, and a node is lost: pulling `/a/b` up onto `/a` loses `/a/b/x` when
  there is a `/a/b/b/x` (`RenameMovesSubtree`, `RenameClobbers`). It never happens when
  neither path contains the other or a single node moves (`RenameUsuallyMoves`). When the
  node is a directory, its absence is mirrored later and takes a file that is still there
  along: OPFS ends without it, with nothing queued and no loss counted
  (`ClobberBreaksInclusion`). Without clobbering that never happens (`MirrorInclusion`).
* A directory removed and re-created before the flusher reaches it keeps its old files
  in OPFS, so a reload brings them back (`RecreatedDirKeepsChildren`); without such an
  overtaken removal OPFS and the tree agree (`CleanDrainConverges`).
* A directory that came about only as the parent of a file is never marked: when the file
  is gone before the flusher gets to it, the directory stays in the tree and OPFS never
  has it, with nothing queued and no loss counted (`UnmarkedParentIsLost`). Nothing else
  is missing after a loss-free drain: every marked directory is there (`DrainedDirs`), and
  below a missing one there is neither a file nor a marked directory
  (`OnlyBareDirsAreMissing`).
* When a backup refresh fails, the backup is emptied and main written all the same: the
  committed registry stays recoverable if and only if each call of the refresh succeeds
  (`RefreshDecides`). Otherwise accounts depend on what a crash leaves of main
  (`SweptAfterFailedRefresh`): from a new profile, the crash can hit an account's uuid in
  the write, and the next boot deletes the database of an account that both the old and
  the new registry name (`FailedRefreshSweeps`).
* Before a session's first commit the backup is seeded from main, so a failed attempt
  that is tried again can copy its own half-written main over the last good backup
  (`RetryLoses`). Over any attempts the previous registry survives exactly when the guard
  `AttemptSafe` holds before each (`SurvivesExactly`). For one registry tried until it is
  committed this can be told at boot: the first attempt is safe, and no partial write of
  the new registry over main reads as a third one (`RetriesExactly`). Two bytes of
  difference break that (`TwoBytesExpose`), and when the attempts may bring different
  registries no files are safe (`AnyRegistryLoses`).
* Syncing the committed registry again reports success while main is still torn from an
  earlier failed write (`NoOpHidesTornMain`). The report is true exactly when every byte
  the failures since the commit left behind agrees with the registry
  (`SuccessMeansMain`); a missing flush alone is enough to make it false.
* The pool ignores late results of a worker it gave up on, but not that worker's late
  handshake failure or error event: those kill the replacement (`LateEventsExactly`).
* A file that was lazy (stored without hashing) in one version and is a manifest file of
  the next, with the same recorded hash, is trusted unread: a completed install can hold
  wrong bytes (`LazyBytesAreTrusted`). Every stored manifest file is true afterwards
  exactly when all that was taken unread was (`TrueAfterExactly`,
  `UnchangedHashesAreTrusted`); the update theorems ask that no path changes sides.
* `invokeRpc` is documented to refuse malformed arguments; the code refuses unknown names
  only (`RefusedExactly`) and fills what is missing with `undefined`
  (`HolesAreNotRefused`). The real client is called with what was posted exactly when as
  much was posted as the method takes (`HolesExactly`).
* A global pax header counts as a member of the tar stream, so a local pax block in front
  of it is attached to it rather than to the file behind it (`GlobalHeaderTakesPax`).
  What is held reaches the file exactly when the first header that cannot be held is not
  a global one (`HeldReachesTheFile`).
* An owner of a call whose message-id callback throws ends the call without a word to the
  far end, which learns of it only from a hang-up that follows (`OwnerThrewIsSilent`).

## Model

| member | source | states |
|---|---|---|
| Paths.Normalize | crates/tokio-wasm-shim/src/fs.rs:91-103 | the loop over components computes the key a spelling denotes |
| Paths.NormalizePieces | crates/tokio-wasm-shim/src/fs.rs:91-103 | piece by piece what every spelling denotes: empty pieces and `.` stay, `..` goes up and stops at the root, any other piece goes down |
| Paths.NormalizedIsValid | crates/tokio-wasm-shim/src/fs.rs:91-103 | whatever the spelling, the key consists of real names only: no empty part, `.`, `..` or separator |
| Paths.NormalizeIdempotent | crates/tokio-wasm-shim/src/fs.rs:91-103 | normalizing a rendered key again changes nothing |
| Paths.RenderRoundTrip | crates/tokio-wasm-shim/src/fs.rs:91-103 | every key is the normal form of its own spelling |
| Paths.JoinStaysBelow | crates/tokio-wasm-shim/src/fs.rs:91-103 | a joined path stays at or below its base when the suffix is relative and has no `..` |
| MemFs.RenameMovesSubtree | crates/tokio-wasm-shim/src/fs.rs:282-311 | the rename loop, in any key order, moves exactly the subtree with its nodes if and only if no key is written over a source key whose turn is still to come |
| MemFs.RenameUsuallyMoves | crates/tokio-wasm-shim/src/fs.rs:282-311 | it does so, in any key order, whenever neither path contains the other, they are equal, or a single node moves |
| MemFs.ClobberingLosesKey | crates/tokio-wasm-shim/src/fs.rs:282-311 | whenever a key is written over before its turn, in any key order, some key of the moved subtree is missing afterwards |
| MemFs.RenameClobbers | crates/tokio-wasm-shim/src/fs.rs:282-311 | a concrete tree whose rename loses a file |
| MemFs.SplicedAt | crates/tokio-wasm-shim/src/fs.rs:720-743 | a handle's write, byte by byte: the buffer where it was aimed, zeros in a gap, the rest as before |
| MemFs.ApplyKeepsClosed | crates/tokio-wasm-shim/src/fs.rs:132-318 | under the callers' guarantees every key keeps all its ancestors, for every mutation |
| TreeLaws.ApplyMeans | crates/tokio-wasm-shim/src/fs.rs:132-318 | key by key, what a caller finds after each mutation: a write holds exactly its bytes and adds only missing parents, creations add only directories, removals take exactly the subtree or the node, a rename moves as its order says, a resize keeps the old bytes and pads with zeros, and an error changes nothing |
| Durability.Drive | crates/tokio-wasm-shim/src/durability.rs:48-60 | a path is tried until its first success, at most four times, sleeping 50, 200 and 800 ms; it is lost exactly when all four fail |
| Mirror.AfterAccounted | crates/tokio-wasm-shim/src/opfs.rs:235-245 | every step keeps: in-flight is the queue plus the one being worked on, the dedupe set is the queue without duplicates, attempts stay within four |
| Mirror.DequeueAccounts | crates/tokio-wasm-shim/src/opfs.rs:441-445 | un-marking and taking a path keeps the accounting |
| Mirror.FlusherDescends | crates/tokio-wasm-shim/src/opfs.rs:440-490 | with no new marks every flusher step lowers (queue length, attempts left, phase) lexicographically |
| Mirror.NeverStuck | crates/tokio-wasm-shim/src/opfs.rs:440-490 | while something is in flight the flusher has a step to take |
| MirrorProgress.AttemptExactly | crates/tokio-wasm-shim/src/opfs.rs:493-538 | for every phase and every answer of OPFS: whether the attempt fails, ends or goes on, that a failure is tried again up to the fourth and then counted once as lost, and what each path of the mirror holds afterwards, torn writes and partial removals included |
| MirrorProgress.GrantedNeverFails | crates/tokio-wasm-shim/src/opfs.rs:493-538 | when OPFS grants everything and holds nothing of the other kind in the way, no attempt ever fails and nothing is lost |
| MirrorProgress.TakesOldest | crates/tokio-wasm-shim/src/opfs.rs:440-453 | the oldest queued path is taken, un-marked, and begun with what the tree holds of it at that moment |
| MirrorProgress.WakesAgain | crates/tokio-wasm-shim/src/opfs.rs:453-488 | a path that slept is tried once more, under the next attempt, with what the tree holds by then |
| MirrorProgress.MarkedExactly | crates/tokio-wasm-shim/src/opfs.rs:224-246 | a mutation queues exactly the paths it marks, each once, but for the account list when the held handles took it |
| MirrorSafety.ChangedIsMarked | crates/tokio-wasm-shim/src/fs.rs:132-318 | every file a mutation creates or changes is marked itself |
| MirrorConvergence.GoneIsMarkedOrRemoved | crates/tokio-wasm-shim/src/fs.rs:188-318 | everything a mutation makes vanish, and every file it turns into something else, is marked or lies at or below a marked removal |
| MirrorSafety.ClientKeepsSafe | crates/tokio-wasm-shim/src/fs.rs:132-318 | a mutation landing anywhere, also between snapshot and write, keeps the mirror invariant |
| MirrorSafety.FlusherKeepsSafe | crates/tokio-wasm-shim/src/opfs.rs:440-538 | every flusher step keeps it, with any failure, torn write or partial removal |
| MirrorSafety.RunKeepsSafe | crates/tokio-wasm-shim/src/opfs.rs:224-538 | the invariant holds along every interleaving |
| MirrorSafety.MirrorInclusion | crates/tokio-wasm-shim/src/opfs.rs:224-246 | at every moment of every run from boot without a clobbering rename, each file outside the config pair is byte-equal in OPFS, queued, being written, or given up at its last reconcile |
| MirrorDirs.SuccessMakesDir | crates/tokio-wasm-shim/src/opfs.rs:519-521 | a reconcile of a directory that ends in success leaves it a directory of OPFS |
| MirrorDirs.DirInclusion | crates/tokio-wasm-shim/src/opfs.rs:224-246 | at every moment of every run: a directory that was there at boot or was marked, and has been in the tree since, is a directory of OPFS, queued, being worked on, or given up |
| MirrorDirs.DrainedDirs | crates/tokio-wasm-shim/src/opfs.rs:492-538 | so after a loss-free drain every such directory is there |
| MirrorDirs.OnlyBareDirsAreMissing | crates/tokio-wasm-shim/src/opfs.rs:492-538 | a directory still missing then was never marked, and below it there is no file and no marked directory |
| MirrorDirs.UnmarkedParentIsLost | crates/tokio-wasm-shim/src/fs.rs:132-150 | a run from boot that ends drained and without a loss, with a directory of the tree that OPFS never got: it came about as a parent and its file was removed first |
| MirrorSafety.NothingInFlight | crates/tokio-wasm-shim/src/opfs.rs:278-304 | nothing in flight and the loss counter where the baseline was: every file marked since is byte-equal in OPFS |
| MirrorClobber.ClobberBreaksInclusion | crates/tokio-wasm-shim/src/fs.rs:282-311 | a run from boot with one rename that is legal but clobbers: afterwards a file of the tree is not in OPFS, not queued, not being written, and no loss was counted |
| FlushVerdict.FlushPending | crates/tokio-wasm-shim/src/opfs.rs:278-304 | the polling loop with 32-bit counters returns zero exactly when a poll saw nothing in flight and the loss counter no higher than the baseline |
| FlushVerdict.ZeroMeansDurable | crates/tokio-wasm-shim/src/opfs.rs:278-304 | after a zero verdict there was a poll at which every file marked since the baseline was durable, whatever ran meanwhile |
| FlushVerdict.FlushSince | crates/tokio-wasm-shim/src/opfs.rs:266-312 | the loss counter read off a run, and the polling loop with it: zero exactly when a poll found nothing in flight and nothing lost since, and then everything written since was durable at that poll |
| MirrorConvergence.RunKeepsConverging | crates/tokio-wasm-shim/src/opfs.rs:492-538 | everything OPFS has beyond the tree, file or directory, is explained by a removal still under way or overtaken |
| MirrorConvergence.ExtrasLieBelowTainted | crates/tokio-wasm-shim/src/opfs.rs:519-535 | once drained, any extra file or directory lies at or below a removal that was overtaken by a creation, refused by OPFS, or given up |
| MirrorConvergence.DrainedEqual | crates/tokio-wasm-shim/src/opfs.rs:492-538 | in every run without a clobbering rename: drained without losses or such removals, OPFS and the tree hold the same files with the same bytes, and OPFS has nothing the tree has not |
| MirrorConvergence.CleanDrainConverges | crates/tokio-wasm-shim/src/opfs.rs:492-538 | the same from a condition on the steps: nothing created under a removal still pending, removals granted, nothing given up |
| MirrorConvergence.RecreatedDirKeepsChildren | crates/tokio-wasm-shim/src/opfs.rs:519-535 | without that condition it fails: a removed and re-created directory keeps its old file |
| Store.Worker.Mark | crates/tokio-wasm-shim/src/opfs.rs:224-246 | the path is appended exactly if it is not queued yet and the held handles did not take the account list |
| Store.Worker.CreateParents | crates/tokio-wasm-shim/src/fs.rs:137-140 | the upward loop adds exactly the missing proper ancestors |
| Store.Worker.WriteSync | crates/tokio-wasm-shim/src/fs.rs:132-150 | the path holds exactly the bytes written; the only other new keys are its missing proper ancestors, as directories; every other key keeps its node; the step is the protocol's |
| Store.Worker.CreateDirectory | crates/tokio-wasm-shim/src/fs.rs:162-167 | the path is a directory, no other key changed, and it is marked |
| Store.Worker.SyncCreateDirAll | crates/tokio-wasm-shim/src/fs.rs:174-185 | the missing keys among the path and its ancestors are directories, every key that was there keeps its node, only the path itself is marked |
| Store.Worker.SyncRemove | crates/tokio-wasm-shim/src/fs.rs:188-217 | exactly the keys at or below the path are gone and the others keep their nodes; an empty subtree is an error and changes nothing |
| Store.Worker.RemoveFile | crates/tokio-wasm-shim/src/fs.rs:219-238 | exactly the one key is gone, or an error and no change |
| Store.Worker.SyncRename | crates/tokio-wasm-shim/src/fs.rs:282-318 | the loop is the rename of `MemFs` for the order the keys come in, what it leaves is said key by key, and the source and every target are marked |
| Store.Worker.SetLength | crates/tokio-wasm-shim/src/fs.rs:644-660 | the file has the new length, every old byte below it stays, the rest is zero; too long or no file is an error and changes nothing |
| Store.Worker.PollWrite | crates/tokio-wasm-shim/src/fs.rs:714-742 | byte by byte the buffer is where it was aimed, a gap is zero, the rest is as before, the position advances; the bound is checked on a saturating sum |
| Store.Worker.EnsureDirs | crates/tokio-wasm-shim/src/opfs.rs:605-618 | the creating walk plays only protocol steps; when it succeeds every prefix walked is a directory of OPFS and nothing else changed |
| Store.Worker.ReconcileFile | crates/tokio-wasm-shim/src/opfs.rs:507-518 | directories, handle, write: only protocol steps; success means the file has exactly the snapshot's bytes in OPFS under its directories, and no other file changed |
| Store.Worker.ReconcileMissing | crates/tokio-wasm-shim/src/opfs.rs:522-535 | the non-creating walk and the removal by protocol steps: nothing outside the path's subtree changes, and with every call granted the subtree is gone |
| Store.Worker.Reconcile | crates/tokio-wasm-shim/src/opfs.rs:493-538 | one attempt is a run of the protocol from its snapshot to its verdict; success means OPFS has the snapshot's file, or its directory and every one above it, or no longer has what was removed, every call granted |
| Store.Worker.FlushOne | crates/tokio-wasm-shim/src/opfs.rs:453-488 | the retry loop for one path is a run of the protocol and ends with one decrement |
| Store.Worker.Flusher | crates/tokio-wasm-shim/src/opfs.rs:440-490 | left alone the flusher terminates with nothing in flight, by a run of the protocol |
| Store.Worker.Hydrate | crates/tokio-wasm-shim/src/opfs.rs:641-672 | the stack-driven load, in any listing order, terminates with the tree equal to the mirror |
| Hydration.ReadOneDirAdvances | crates/tokio-wasm-shim/src/opfs.rs:643-670 | reading one directory makes progress and forgets no unread one |
| Registry.UuidRoundTrip | crates/tokio-wasm-shim/src/registry.rs:27-30 | the uuid read off an account's database path is that account's |
| Registry.SweptExactly | crates/tokio-wasm-shim/src/registry.rs:62-75 | an account database is deleted exactly when main is a plausible registry and neither file mentions the account |
| Registry.OtherDatabases | crates/tokio-wasm-shim/src/registry.rs:62-75 | of all other pool files exactly the left-over of a backup export is deleted, wherever it lies, and only under a plausible main |
| Registry.PlausibleExactly | crates/tokio-wasm-shim/src/registry.rs:32-40 | main is believed exactly when, white space aside, it begins with the key every registry begins with |
| Registry.Sweep | crates/tokio-wasm-shim/src/opfs.rs:163-177 | the loop attempts exactly the orphan slots of the pool, and none without a plausible main |
| Registry.PurgeUnder | crates/tokio-wasm-shim/src/opfs.rs:826-852 | exactly the pool files component-wise under the path go, but for those whose deletion fails |
| Registry.PurgeIsPerAccount | crates/tokio-wasm-shim/src/opfs.rs:838-840 | purging an account's directory reaches another account's database only if it is the same account |
| Commit.CrashKeepsRegistry | crates/tokio-wasm-shim/src/opfs.rs:346-422 | whatever fails and wherever in a write the worker dies, main or the backup holds exactly the vouched-for registry |
| Commit.ClaimIsCommitted | crates/tokio-wasm-shim/src/opfs.rs:389-390 | the vouched-for registry is the last one committed in the session |
| Commit.StartsWithBackup | crates/tokio-wasm-shim/src/opfs.rs:346-390 | a write-through begins with the backup exactly when the session committed non-empty bytes before, or main, read back, is at most 512 KiB and begins like a registry; bytes already there are a no-op; a torn or foreign main is never copied |
| Commit.CommittedIsVouched | crates/tokio-wasm-shim/src/opfs.rs:346-404 | without quarantine or failed backup refresh every non-empty committed registry is vouched for until the next commit |
| Commit.SweepSparesRegistered | crates/tokio-wasm-shim/src/opfs.rs:159-177 | end to end: after a crash anywhere the next boot spares every account the last committed registry mentions |
| FailedRefresh.RefreshDecides | crates/tokio-wasm-shim/src/opfs.rs:377-390 | in every run from boot, at each I/O call of a refresh: the committed registry stays in main or the backup at every crash of every continuation, whatever attempts follow and no later refresh failing, if and only if the call succeeds |
| FailedRefresh.SweptAfterFailedRefresh | crates/tokio-wasm-shim/src/opfs.rs:378-390 | with the backup emptied, a crash inside the main write costs an account exactly when what is left of main reads as a registry and does not name it |
| FailedRefresh.FailedRefreshSweeps | crates/tokio-wasm-shim/src/opfs.rs:378-390 | for every account: a run from a new profile in which the refresh fails, and a crash after which the next boot deletes the account's database though both registries name it |
| FirstCommit.OneAttemptExactly | crates/tokio-wasm-shim/src/opfs.rs:363-389 | one attempt by itself, nothing tried again, keeps the previous session's registry in main or the backup at every crash point exactly when main reads as that very registry, or does not read as one and the backup is it (no-op and unchanged cases included) |
| FirstCommit.SurvivesExactly | crates/tokio-wasm-shim/src/opfs.rs:346-590 | over every run of attempts before the first commit, whatever they bring and wherever they fail, the previous registry survives every crash exactly when each attempt finds the files safe |
| FirstCommit.RetriesExactly | crates/tokio-wasm-shim/src/opfs.rs:346-590 | trying one registry until it is committed keeps the previous one at every crash point exactly when the first attempt is safe and no partial write of it over the main of boot time reads as a third registry |
| FirstCommit.RetryLoses | crates/tokio-wasm-shim/src/opfs.rs:363-389 | a registry that one attempt cannot lose and a second one does |
| FirstCommit.TwoBytesExpose | crates/tokio-wasm-shim/src/opfs.rs:363-389 | a retry can lose the registry in main whenever the new one differs from it in two bytes and both read as registries |
| FirstCommit.AnyRegistryLoses | crates/tokio-wasm-shim/src/opfs.rs:346-404 | if attempts may bring different registries, no files at boot are safe: two attempts lose the previous one |
| ConfigStore.SahWrite | crates/tokio-wasm-shim/src/opfs.rs:409-422 | write, truncate, flush: complete on success, and on each failure the exact torn content left |
| ConfigStore.ConfigFiles.RefreshBak | crates/tokio-wasm-shim/src/opfs.rs:377-388 | refresh or clear the backup, as steps of the commit protocol |
| ConfigStore.ConfigFiles.CommitMain | crates/tokio-wasm-shim/src/opfs.rs:389-390 | the main write, remembered only when it succeeded |
| ConfigStore.ConfigFiles.WriteConfigThrough | crates/tokio-wasm-shim/src/opfs.rs:346-404 | the whole function plays only steps of `Commit`, so its crash theorems apply |
| ConfigStore.PlaysReaches | crates/tokio-wasm-shim/src/opfs.rs:346-404 | every run of the class has a vouching record |
| ConfigStore.NoOpHidesTornMain | crates/tokio-wasm-shim/src/opfs.rs:374-376 | the no-op return reports success over a torn main |
| SyncVerdict.SuccessMeansMain | crates/tokio-wasm-shim/src/opfs.rs:346-422 | over every run of a session, syncing the committed registry reports success, and main really holds it exactly when every byte left by a failure since that commit agrees with it |
| SyncVerdict.AfterOneFailure | crates/tokio-wasm-shim/src/opfs.rs:409-422 | with no failure since the commit main holds it; after one, exactly when what was written is a prefix of it, and after a missing flush never |
| CallState.CallStateMachine.Transition | packages/calls/engine/call-state.ts:86-97 | a refused transition is silent; an effective one tells every listener exactly once, in order, and extends a path of the table |
| CallState.CallStateMachine.Subscribe | packages/calls/engine/call-state.ts:104-109 | adds one listener and notifies nobody |
| CallState.PathsAreShort | packages/calls/engine/call-state.ts:51-57 | no path of the table has more than five states, and `Ended` can only be the last |
| CallEngineSafety.EndingKeeps | packages/calls/engine/audio-call.ts:1109-1122 | teardown keeps every remaining live track owned |
| CallEngineSafety.AdoptKeeps | packages/calls/engine/audio-call.ts:460-472 | the first stream is adopted or stopped, and everything up to the next await leaves no orphan track or connection |
| CallEngineSafety.AddTracksKeeps | packages/calls/engine/audio-call.ts:1009-1068 | sender setup and the placeholder track, on every branch and throw |
| CallEngineSafety.ReplacingKeeps | packages/calls/engine/audio-call.ts:626-662 | a stream acquired mid-call is handed to the next step or stopped |
| CallEngineSafety.SwapKeeps | packages/calls/engine/audio-call.ts:957-966 | replacing one kind of track stops the one there was, and no other |
| CallEngineSafety.ShareReplaceKeeps | packages/calls/engine/audio-call.ts:880-907 | a share that arrives, fails or is overtaken by the end leaves every live track owned |
| CallEngineRuns.StepKeepsTidy | packages/calls/engine/audio-call.ts:451-939 | no event of any kind, from any reachable state, leaks a track or leaves a second connection |
| CallEngineRuns.NoLeakedMedia | packages/calls/engine/audio-call.ts:451-1122 | over all interleavings every un-stopped track has an owner, the local stream has at most one per kind, and only the engine's connection is open |
| CallEngineRuns.EndedHoldsNothing | packages/calls/engine/audio-call.ts:1109-1122 | an ended engine holds no connection, stream or sender; what is live belongs to a suspended operation; a suspended gather is aborted |
| CallEngineRuns.EndedDrains | packages/calls/engine/audio-call.ts:1206-1208 | after the end every resumption leaves strictly less to resume and nothing adds to it |
| CallEngineRuns.TeardownWins | packages/calls/engine/audio-call.ts:1109-1122 | in every run the end is final and, once the bounded number of suspended operations has resumed, no track is live |
| CallEngineLog.StepTold | packages/calls/engine/audio-call.ts:451-939 | every event extends the callback history consistently with the state it is given in |
| CallEngineLog.SilentAfterEnd | packages/calls/engine/audio-call.ts:1399-1406 | after the change to ended only late errors and one failure follow |
| CallEngineLog.EndedIsAbsorbing | packages/calls/engine/audio-call.ts:1193-1208 | in every run the states are a path of the table of at most five; no offer, answer, remote stream, track or share notice follows the end; at most one failure, only on an ended engine |
| CallEngineSetup.OneDescription | packages/calls/engine/audio-call.ts:451-609 | in every run a call surfaces at most one offer or answer |
| CallEngineSetup.DescriptionFits | packages/calls/engine/audio-call.ts:484-609 | in every run an offer is surfaced only by an outgoing call and an answer only by an incoming one |
| CallEngineSetup.GatheredIsSurfaced | packages/calls/engine/audio-call.ts:484-609 | in every run a gathering that resolves while its call is active surfaces, at once, exactly the description of the call's direction, and a callee may connect with it |
| CallEngineTold.ToldIsCurrent | packages/calls/engine/audio-call.ts:451-939 | in every run, whatever operations overlap: the microphone, the camera or screen and the share that the owner was told of last are exactly those of the live call |
| CallEngineProgress.MovesHaveCauses | packages/calls/engine/audio-call.ts:451-939 | every move of the state has its one cause: placed or received, accepted or answered in the right direction, connection up, hung up, lost, or a failed step of the running setup |
| CallEngineProgress.CausesMove | packages/calls/engine/audio-call.ts:451-939 | and each of these causes, the failures apart, moves it |
| CallEngineProgress.RemoteIsTold | packages/calls/engine/audio-call.ts:1258-1272 | the far end's media is announced whenever it arrives for a connection of a call that is not over, and never otherwise |
| CallEngineProgress.FailureEnds | packages/calls/engine/audio-call.ts:1193-1208 | a step of the running setup that throws ends the call with the end and one failure told and everything of it released; only a refused camera at the start is asked for again without |
| CallEngineStages.CallBegins | packages/calls/engine/audio-call.ts:451-546 | placing rings under a new epoch and asks for the devices as wished; receiving rings, asks for nothing and clears the wish |
| CallEngineStages.CallIsAccepted | packages/calls/engine/audio-call.ts:557-577 | accepting connects and asks for the camera exactly as wished by either |
| CallEngineStages.StreamArrives | packages/calls/engine/audio-call.ts:460-479 | the first stream is what is sent, is announced in order, gets the one connection, and a camera that could not be had is reported; a caller goes on to its senders, a callee to the caller's description |
| CallEngineStages.RemoteIsSet | packages/calls/engine/audio-call.ts:580-594 | with the caller's description set the callee sends its tracks, with a placeholder exactly when it has no camera |
| CallEngineStages.StagesFollow | packages/calls/engine/audio-call.ts:473-489 | description created, set, candidates gathered, in this order, and nothing else of the call changes |
| CallEngineStages.AnswerIsApplied | packages/calls/engine/audio-call.ts:495-513 | an answer is taken once, by a ringing caller with a connection; in any other state nothing changes |
| CallEngineDevices.CameraOn | packages/calls/engine/audio-call.ts:694-830 | turning the camera on, or switching it, ends with the new camera's track alone sent and announced, the old one stopped, nothing else touched |
| CallEngineDevices.CameraOff | packages/calls/engine/audio-call.ts:763-800 | turning it off ends with no video sent, the camera stopped, and that announced |
| CallEngineDevices.MicSwitched | packages/calls/engine/audio-call.ts:616-688 | switching the microphone ends with the new track alone as audio, the old one stopped |
| CallEngineDevices.ShareStarted | packages/calls/engine/audio-call.ts:846-910 | sharing ends with the screen in the camera's place, the camera stopped and off, and both announced |
| CallEngineDevices.ShareStopped | packages/calls/engine/audio-call.ts:918-940 | stopping a share stops the capture at once and says so, and ends with no video sent |
| CallEngineDevices.CameraEndsShare | packages/calls/engine/audio-call.ts:763-800 | the camera turned on during a share first ends the share, then is asked for |
| CallEngineDevices.DeviceFails | packages/calls/engine/audio-call.ts:616-939 | a device operation that throws stops what it acquired, reports one error of its kind, and changes nothing else |
| CallEngineDevices.LateStreamIsStopped | packages/calls/engine/audio-call.ts:626-662 | a stream for a call that is over is stopped and nobody is told |
| CallEngineDevices.RequestsExactly | packages/calls/engine/audio-call.ts:616-939 | a device request is ignored when pointless or the call is not live, reported when the call cannot do it, and otherwise waits for exactly the platform call it needs |
| CallEngineSetup.CameraNeedsConsent | packages/calls/engine/audio-call.ts:529-577 | in every run an incoming call wishes for and asks for the camera at its start only after an accept with video, whatever the caller sent |
| CallEngineSetup.StepKeepsSetup | packages/calls/engine/audio-call.ts:451-609 | every event keeps at most one setup under way, none once its description is out, and no unwished camera request |
| CallEngineSetup.ResumeGoes | packages/calls/engine/audio-call.ts:451-609 | a resumed setup goes on past its acquisition, surfaces its one description, or is over; every other operation leaves setups alone |
| AudioCall.AudioCallEngine.PlaceCall | packages/calls/engine/audio-call.ts:451-459 | idle only; a new epoch, ringing, and a suspended acquisition; the invariant holds |
| AudioCall.AudioCallEngine.ReceiveCall | packages/calls/engine/audio-call.ts:529-546 | idle only; the wish for video is cleared and nothing is acquired |
| AudioCall.AudioCallEngine.AcceptCall | packages/calls/engine/audio-call.ts:557-577 | a ringing incoming call only; one acquisition starts, with video exactly as wished after this accept |
| AudioCall.AudioCallEngine.TakeAnswer | packages/calls/engine/audio-call.ts:495-513 | moves ringing to connecting once, else nothing |
| AudioCall.AudioCallEngine.SetCameraEnabled | packages/calls/engine/audio-call.ts:763-785 | reports, ignores, stops a share first, or suspends on the camera |
| AudioCall.AudioCallEngine.Hangup | packages/calls/engine/audio-call.ts:1109-1122 | the user's end, at any moment, takes the model's step and keeps the invariant |
| AudioCall.AudioCallEngine.Settle | packages/calls/engine/audio-call.ts:451-939 | resuming any suspended operation with any answer takes the model's step, whose meaning `CallEngineStages`, `CallEngineDevices` and `GatheredIsSurfaced` state, and keeps the invariant |
| CallBridge.SentAtMostOnce | packages/calls/bridge/index.ts:689-695 | in every run `endCall` is sent at most once, with this call's id, after the local teardown |
| CallBridge.StepMeans | packages/calls/bridge/index.ts:682-753 | what each event does to the call, to what the far end is told and to what the owner is told |
| CallBridge.EndedExactly | packages/calls/bridge/index.ts:682-753 | in every run the call is over exactly when an event that ends it came |
| CallBridge.IdIsToldExactly | packages/calls/bridge/index.ts:712-735 | in every run the owner is given the id of exactly the placement that came to a live call |
| CallBridge.SentExactlyWhen | packages/calls/bridge/index.ts:682-735 | it is sent if and only if some hang-up with a known id, or some id of a call already over, came before any remote end or accepted-elsewhere |
| CallBridge.HangupIsAnnounced | packages/calls/bridge/index.ts:682-735 | a hang-up reaches the far end exactly once with the placed id, also when it came before the id, unless the far end or another device came first |
| CallBridge.EndedStays | packages/calls/bridge/index.ts:682-710 | once torn down the call stays so |
| CallBridge.Bridge.UserHangup | packages/calls/bridge/index.ts:682-686 | keeps the run invariant; the call is over, and the far end is told with this call's id exactly if it is known and nobody spoke first; a second hang-up changes nothing |
| CallBridge.OwnerThrewIsSilent | packages/calls/bridge/index.ts:712-735 | after an exception of the owner at the announcement the far end is told if and only if a hang-up follows before it speaks itself |
| CallBridge.Bridge.OnPlaced | packages/calls/bridge/index.ts:712-735 | keeps the run invariant; a placed call is either announced to the owner or, if it ended meanwhile, cancelled once, never both; a failed placement, or an owner that throws, ends it unsent |
| CallBridge.Bridge.SendAnswer | packages/calls/bridge/index.ts:737-743 | under the run invariant the missing-id guard never fires: an incoming call always asks |
| PopupRpc.InvokeInvertsEncode | packages/calls/bridge/popup-signaling.ts:159-183 | the opener runs the popup's own method with the popup's own arguments |
| PopupRpc.RefusedExactly | packages/calls/bridge/popup-signaling.ts:230-252 | for all arguments, only a name no client method posts under is refused |
| PopupRpc.HolesExactly | packages/calls/bridge/popup-signaling.ts:230-252 | the real client gets exactly what was posted if and only if as much was posted as the method takes; otherwise all of it and undefined for the rest |
| PopupRpc.StepKeepsSound | packages/calls/bridge/popup-signaling.ts:128-228 | every delivery, settlement or disposal keeps each call pending or settled exactly once, and every reply faithful |
| PopupRpc.StepMeans | packages/calls/bridge/popup-signaling.ts:128-252 | what each call, delivery, settlement and disposal does on both sides of the relay |
| PopupRpc.RepliesExactly | packages/calls/bridge/popup-signaling.ts:128-252 | in every run a call is settled exactly by the reply that arrives while it is pending, as that reply says, or by closing, and a reply is exactly what a run of the real client gave, a failure to pass it on, or the refusal of an unknown name |
| PopupRpc.RelayRefinesDirectCalls | packages/calls/bridge/popup-signaling.ts:128-252 | under any delivery order, repetition or loss each call settles at most once, and a resolved one has the value the real client returned for its own method and arguments |
| PopupRpc.NothingHangsAfterDispose | packages/calls/bridge/popup-signaling.ts:186-194 | after dispose nothing is pending and no settlement changes |
| PopupRpc.PopupRpcClient.CallMethod | packages/calls/bridge/popup-signaling.ts:150-157 | rejects when closed, else posts one message under a fresh id |
| PopupRpc.PopupRpcClient.OnReply | packages/calls/bridge/popup-signaling.ts:138-148 | settles the one waiting call or nothing |
| PopupRpc.PopupRpcClient.DisposeRelay | packages/calls/bridge/popup-signaling.ts:186-194 | rejects every pending call once, in order |
| CryptoPool.RunIsGood | packages/core-wasm/src/worker.ts:111-236 | over every run: jobs are conserved in the order they came in, at most eight wait, waiting implies running, the running job has the only deadline, posts are in order, the statistics count the completed ones |
| CryptoLedger.StepMeans | packages/core-wasm/src/worker.ts:132-236 | what every event does in any state of the pool: which jobs end and how, in order, what is posted, what a death costs in failures and attempts, when a success resets them, what is counted |
| CryptoLedger.CompletedExactly | packages/core-wasm/src/worker.ts:150-166 | over every run a job is settled as completed exactly when an ok result for it came while it was the running one, and the statistics of each operation are the number of these results |
| CryptoLedger.FailedOnlyIf | packages/core-wasm/src/worker.ts:150-224 | a job settled as failed was answered with a failure, held when its worker was given up on, or could not be posted |
| CryptoLedger.FailedAtOnce | packages/core-wasm/src/worker.ts:150-192 | and the first two settle it as failed at once |
| CryptoLedger.StartMeans | packages/core-wasm/src/worker.ts:128-192 | the pool starts with the first of four attempts that does not throw, and is dead from the start when all four do |
| CryptoPool.StepIsGood | packages/core-wasm/src/worker.ts:132-236 | each event keeps that and only adds settlements |
| CryptoPool.EachJobInOnePlace | packages/core-wasm/src/worker.ts:179-236 | every accepted job is exactly one of settled once, running, queued |
| CryptoPool.DeathIsAbsorbing | packages/core-wasm/src/worker.ts:190-192 | a dead pool stays dead, holds nothing, accepts nothing |
| CryptoPool.LateResultIsIgnored | packages/core-wasm/src/worker.ts:150-168 | a result of a worker already given up on changes nothing |
| CryptoPool.LateEventsExactly | packages/core-wasm/src/worker.ts:143-176 | of everything a given-up worker can still say, a result or a successful handshake changes at most the handshake flag; exactly a failed handshake or an error event replaces the successor and rejects all its jobs |
| CryptoPool.SettlingShrinks | packages/core-wasm/src/worker.ts:143-192 | a matching result, a deadline or a worker failure leaves strictly fewer unsettled jobs |
| CryptoPool.CryptoWorkerPool.SpawnWorker | packages/core-wasm/src/worker.ts:132-142 | the mutual recursion with die terminates and is the model's |
| CryptoPool.CryptoWorkerPool.RejectAll | packages/core-wasm/src/worker.ts:182-185 | the running job then the queue are rejected, in order, and the deadline is cleared |
| CryptoPool.CryptoWorkerPool.SettleActive | packages/core-wasm/src/worker.ts:150-166 | exactly the running job is settled, with the verdict of its result, and exactly its operation is counted, only if that is ok |
| CryptoPool.CryptoWorkerPool.PumpNext | packages/core-wasm/src/worker.ts:195-215 | jobs that cannot be posted are settled and the next is tried, until one runs |
| CryptoPool.CryptoWorkerPool.RunOp | packages/core-wasm/src/worker.ts:226-235 | refused when dead or full, else queued under the next id and started if free |
| CryptoPool.CryptoWorkerPool.OnMessage | packages/core-wasm/src/worker.ts:143-170 | every message, fatal or late, takes the model's step, whose meaning `CryptoLedger.StepMeans` states, and keeps the invariant |
| SwCache.OwnedByItsScopeOnly | packages/web-app/src/sw-cache.ts:24-37 | a scoped cache belongs to its own scope only, neither to a sibling nor to a scope around it |
| SwCache.NamesAreDistinct | packages/web-app/src/sw-cache.ts:24-25 | scope and version can be read back from a cache name |
| SwCache.UnscopedBelongsToAll | packages/web-app/src/sw-cache.ts:34-37 | the old unscoped caches belong to every scope |
| ShellInstall.ShellWorker.ChooseOld | packages/web-app/src/blobs-sw.ts:72-91 | the own cache first, else the first own one with a manifest |
| ShellInstall.ShellWorker.Fill | packages/web-app/src/blobs-sw.ts:94-116 | unchanged files are reused, the rest comes off the network or fails; other entries stay |
| ShellInstall.ShellWorker.Verify | packages/web-app/src/blobs-sw.ts:136-152 | exactly the fetched files that are gone or hash wrong are dropped and reported |
| ShellInstall.ShellWorker.Collect | packages/web-app/src/blobs-sw.ts:153-175 | the errors in manifest order, and whether any file would be lost |
| ShellInstall.ShellWorker.CarryLazy | packages/web-app/src/blobs-sw.ts:220-225 | exactly the lazy files with an unchanged hash come along |
| ShellInstall.ShellWorker.Install | packages/web-app/src/blobs-sw.ts:54-230 | the whole transaction: the storage it leaves and whether it completed |
| ShellLaws.InstallMeans | packages/web-app/src/blobs-sw.ts:54-230 | which cache an install copies from, that it is given up exactly when a file of that cache would be lost, what every file of every cache is afterwards, and that exactly the files that failed are reported, in order |
| ShellLaws.ActivationExactly | packages/web-app/src/blobs-sw.ts:232-247 | activation deletes exactly the other caches of this scope and the unscoped ones; a cache without our prefix is never touched |
| ShellLaws.ServedExactly | packages/web-app/src/blobs-sw.ts:249-299 | which requests are ours, and what answers each: what is stored for it, else the network, else, offline, the stored main.html for a navigation and for nothing else; only an opt-in file is ever stored |
| ShellUpdates.InstallKeepsSound | packages/web-app/src/blobs-sw.ts:54-230 | completed or not, every stored manifest file of every own cache hashes to its recorded value |
| ShellUpdates.NoOfflineFileIsLost | packages/web-app/src/blobs-sw.ts:153-209 | a completed install holds every new-manifest file its chosen old cache could serve, with the new manifest's bytes |
| ShellUpdates.InPlaceTouchesNothing | packages/web-app/src/blobs-sw.ts:60-107 | reinstalling the running version changes no file the running worker has, at no moment |
| ShellUpdates.FailureLeavesTheSurvivor | packages/web-app/src/blobs-sw.ts:184-209 | a failed install leaves every other cache's files and record alone, none of its own, and counts consecutive failures |
| ShellUpdates.FirstInstallCompletes | packages/web-app/src/blobs-sw.ts:210-215 | with nothing to protect the install completes whatever fails |
| ShellUpdates.TrueAfterExactly | packages/web-app/src/blobs-sw.ts:94-152 | after a completed install every stored manifest file hashes to its record exactly when all bytes taken unread did: reused under an unchanged hash, or left in place with no network |
| ShellUpdates.UnchangedHashesAreTrusted | packages/web-app/src/blobs-sw.ts:96-107 | with no install killed midway, exactly when every file of the chosen cache with an unchanged recorded hash was true before |
| ShellUpdates.LazyBytesAreTrusted | packages/web-app/src/blobs-sw.ts:96-107 | a lazy file stored with wrong bytes becomes a manifest file with the same recorded hash: the install completes and holds the wrong bytes |
| ShellUpdates.ServingKeepsTheManifest | packages/web-app/src/blobs-sw.ts:249-299 | serving never writes a manifest entry |
| ShellUpdates.OfflineFilesAreServed | packages/web-app/src/blobs-sw.ts:263-273 | a stored manifest file is answered from the cache, whatever the query or the network |
| ShellUpdates.SiblingsSurvive | packages/web-app/src/blobs-sw.ts:232-247 | activation never deletes a cache of another scope |
| ShellUpdates.UpdateKeepsOffline | packages/web-app/src/blobs-sw.ts:54-247 | one update, completed or failed: the active worker still serves every file it could serve and its manifest lists |
| ShellUpdates.OfflineFilesSurvive | packages/web-app/src/blobs-sw.ts:54-299 | over any sequence of deploys, failures, mismatches and served requests a file available offline stays so while the active manifests list it, always with the active manifest's bytes |
| TarReader.ItemsAreLaidOut | vendor-crates/astral-tokio-tar/src/archive.rs:641-682 | headers and data are block-aligned, data follows its header, the next header follows the data, all below 2^64 |
| TarReader.ItemIsSaid | vendor-crates/astral-tokio-tar/src/archive.rs:631-867 | each item, error or end is what one block of the archive says, its data reaching up to the next whole block; only zero blocks are passed over, when that is asked for and nothing waits for its member |
| TarReader.ListingInOrder | vendor-crates/astral-tokio-tar/src/archive.rs:631-867 | listed entries follow each other without overlap |
| TarReader.TarStream.PollSkip | vendor-crates/astral-tokio-tar/src/archive.rs:1103-1124 | skips exactly the amount over any chunks, or stops resumably, or finds the archive too short |
| TarReader.TarStream.PollHeader | vendor-crates/astral-tokio-tar/src/archive.rs:1077-1100 | fills the block with the archive's bytes over any chunks and interruptions; a clean end and a short block are told apart |
| TarReader.TarStream.PollNext | vendor-crates/astral-tokio-tar/src/archive.rs:631-867 | pending, or exactly what the bytes say at `next`, wherever it was interrupted; the position never lies past `next` at a seek, and `next` stays block-aligned |
| TarReader.TarStream.TakeEntry | vendor-crates/astral-tokio-tar/src/archive.rs:697-867 | the entry with its positions, rounding and both overflow checks |
| TarReader.TarStream.ReadEntry | vendor-crates/astral-tokio-tar/src/archive.rs:1048-1069 | an in-order read returns the archive's next bytes and stays within the entry |
| TarReader.TarStream.NextRaw | vendor-crates/astral-tokio-tar/src/archive.rs:614-628 | over any chunking, interruption and consumption the items yielded are the archive's listing |
| TarExtensions.MembersCarryTheirExtensions | vendor-crates/astral-tokio-tar/src/archive.rs:389-603 | a member carries exactly the extension blocks read since the previous one, at most one of each, no path or link target from two sources, and the end comes only with nothing held (which header is which block: `TarAttribution`) |
| TarAttribution.SettleTreats | vendor-crates/astral-tokio-tar/src/archive.rs:430-590 | by the facts of a header alone: an extension flag out of place is refused and nothing else with that error, a member carries what is held, a long name, long link or local pax block is held, whole, as exactly that, if and only if it is there and fits beside what is held; every error has its reason |
| TarAttribution.MembersAreAttributed | vendor-crates/astral-tokio-tar/src/archive.rs:389-603 | for every archive: the headers read since the last member stand in a row before the next one, and its long name, long link and pax block are each the data of the one header among them with that flag, absent when there is none |
| TarExtensions.AbsorbKeepsUnambiguous | vendor-crates/astral-tokio-tar/src/archive.rs:443-573 | no accepted block makes a held attribute ambiguous |
| TarExtensions.HeldReachesTheFile | vendor-crates/astral-tokio-tar/src/archive.rs:429-603 | what is held goes to the next member; that is the file behind it, extension headers passed over, exactly when the first header of the archive that is none of the three held kinds has not the global flag |
| TarExtensions.GlobalHeaderTakesPax | vendor-crates/astral-tokio-tar/src/archive.rs:574-590 | in every archive, not read in pax-only mode, that begins with a usable local pax block, a global header and an ordinary one, the global header takes the block and the file comes with nothing |
| TarMembers.TarEntries.ReadAll | vendor-crates/astral-tokio-tar/src/entry.rs:1245-1282 | the data of an extension, resumed from any partial read, or a premature end |
| TarMembers.TarEntries.Treat | vendor-crates/astral-tokio-tar/src/archive.rs:429-590 | one entry becomes a member with all that is held, an error, a suspension, or is held whole as what its own flag says; out of place it is refused |
| TarMembers.TarEntries.PollMember | vendor-crates/astral-tokio-tar/src/archive.rs:389-603 | pending, or exactly the member the bytes say comes next, with the headers before it attributed by their flags, however often it was suspended |
| TarSparse.ParseSparse | vendor-crates/astral-tokio-tar/src/archive.rs:954-1045 | accepted exactly when the descriptors decode to ordered, aligned regions below 2^64 that use up the archived size and end at the real size; each refusal names its reason |
| TarSparse.AddBlock | vendor-crates/astral-tokio-tar/src/archive.rs:962-994 | one descriptor extends the list by its pad and data, or is refused for a stated reason |
| TarSparse.ExpansionIsTheFile | vendor-crates/astral-tokio-tar/src/archive.rs:935-997 | whatever the archive holds, reading the list gives its bytes at the listed offsets and zeros elsewhere |
| TarSparse.AcceptedIsDescribed | vendor-crates/astral-tokio-tar/src/archive.rs:954-1045 | said of the descriptors themselves: a reader of an accepted entry gets, for each descriptor in use, the archive's next bytes at its offset, as many as its length, and zeros elsewhere |
| TarSparse.AcceptedMeans | vendor-crates/astral-tokio-tar/src/archive.rs:1031-1044 | the data lengths sum to the archived size, all lengths to the real size |
| TarSparse.SparseFileIsUnique | vendor-crates/astral-tokio-tar/src/archive.rs:935-950 | that description has one file |
| TarSparse.OnlyTheLastIsUnaligned | vendor-crates/astral-tokio-tar/src/archive.rs:969-973 | only the last non-empty region may be anything but whole blocks |

## Left out

- MirrorSafety.MirrorInclusion: its runs, like those of all mirror and convergence theorems, have no clobbering rename (`NoClobber` in `MemFs.Legal`); `MirrorClobber.ClobberBreaksInclusion` shows that they need it.
- Paths and keys: a key is its sequence of names, so a spelling with a trailing separator has no key of its own; that `sync_rename` never makes one is built into the representation.
- Clocks, modification times, console messages, progress callbacks and error texts.
- Reading, seeking, copying, hard links, directory listings and metadata of the file tree: they compose the operations that are modelled and change no other state.
- The bytes of the two config files inside the mirror: the flusher's step for them has only an outcome; their content is the subject of `Commit`.
- FirstCommit.SurvivesExactly: no backup refresh fails and no quarantine happens before the first commit; `FailedRefresh.RefreshDecides` says what a failed refresh does.
- The generic path for the config files after their handles could not be reopened, and the removal of the whole `/accounts` tree.
- Power loss that reorders writes not yet flushed: a crash leaves a prefix of the interrupted write, not an arbitrary mixture.
- An empty committed registry is not vouched for: the code does not back it up.
- The order in which the map hands out keys is any enumeration of the subtree.
- UTF-8 decoding of the registry files is a parameter.
- SQLite import, export and templates, pool capacity.
- Camera and screen-share exclusion: it is true of operations that do not overlap; under overlap what survives is ownership and that the owner's last word is what is sent, and these are proved.
- Muting, remote-media watching, level meters, route polling and negotiation diagnostics of calls; unsubscribing listeners.
- An engine callback that calls `end()` synchronously; streams with several tracks of a kind.
- CallBridge.SentExactlyWhen: takes as given that the engine surfaces one offer per call and none after its end, which `CallEngineSetup.OneDescription` and `CallEngineLog.EndedIsAbsorbing` prove of the engine; the two models are not run together.
- The abrupt close of the popup window, where a hang-up relayed by the popup can race its own closing; a failing `postMessage`.
- Eviction of a cache entry outside the verification of an install; two installs running at once; an install killed midway.
- The blob route of the service worker and its message correlation.
- ShellUpdates.OfflineFilesSurvive: asks that manifest hashes are fixed by the version and that no path is lazy in one version and a manifest path in another.
- Payload transfer and deadline lengths of the crypto pool: a deadline may fire at any time while it is armed.
- Header, checksum and pax field decoding of the tar reader: any function of the header block and the pax records in force, the latter for members only where it matters (`ResizesMembersOnly`).
- Extended sparse headers, the sparse parse following a yielded member in one poll, unpacking, permissions, and consumers that read entries out of order; read errors of the source.
