# Baggageclaim: a verified model of its volume management

Baggageclaim manages volumes. A volume is made in `init`, published to `live`, retired to
`dead` and removed; it can be layered copy-on-write over another volume; and it is created,
changed and destroyed by concurrent requests. This project models those parts in Dafny and
proves what the repository relies on, for every input, every reachable state and every
interleaving of steps.

`dafny verify dfyconfig.toml` checks the whole project.

## How it is organised

| module | part of the system |
|---|---|
| `Forest` | parent links by name: well-foundedness, ancestors, the unique root |
| `Overlay` | the overlay driver, the naive driver, and the refinement between them |
| `OverlayLimits` | exact conditions for what the refinement assumes away, and for recovery |
| `Lifecycle` | creations and destructions as interleaved system calls; the parent forest |
| `LifecycleLimits` | the cycles that are reachable when children do not go first |
| `Cleanup` | what a creation or destruction leaves behind when none of its own calls fails of itself |
| `LateTeardown` | the overlay driver's layers under the interleaved lifecycle |
| `ParentChains` | reading a chain of parents link by link while other requests go on |
| `Filesystem` | the same operations as methods of the object, each a series of steps of one process |
| `DestroyTree` | destroying a volume with all its descendants over a stale listing |
| `Locker` | the keyed lock manager, its steps and all their interleavings |
| `PropertyUpdates` | SetProperty and DestroyVolume composed with the lock manager |
| `Promises`, `AsyncCreate` | promises, the promise list, and asynchronous create, cancel and check |
| `AsyncEndings` | why an asynchronous creation ends the way it does |
| `AsyncLimits` | when a promise can be found, exactly |
| `Handlers` | the handlers as methods on the list and the promises |
| `FanOut` | the destroy-many request with its goroutines and error channel |
| `Metadata` | the JSON metadata files at byte level, overwritten without truncation |
| `JsonText` | the grammar of RFC 8259 against the encoder and decoder of those files |
| `IdMapping` | user and group id remapping, in user space and by the kernel |
| `Ownership` | whether owners follow the privileged flag over the overlay driver |
| `Btrfs` | deletion of nested subvolumes |
| `Properties`, `Listing` | property maps and the listing of volumes |

Each system call is one atomic step that may fail; which calls fail is an input, so that what
happens when none does is stated too. What mutates in place is a class whose
methods are proved against functions of the old state; what runs concurrently is a state
machine over the same functions, with an invariant kept by every step and theorems about
every run. Where a natural property is false of the code, the exact condition for it is proved
instead, with an input at which it fails:

| property | exact condition | failing input |
|---|---|---|
| a new root shows nothing | `OverlayLimits.LeftoverRootExact` | `OverlayLimits.LeftoverShows` |
| a new copy-on-write volume shows its parent | `OverlayLimits.LeftoverLayerExact` | the leftover of `OverlayLimits.LeftoverShows` |
| a second creation of a live handle is harmless | `OverlayLimits.SecondCreationHarmless`; for each ending `OverlayLimits.SecondCreationExact` | `OverlayLimits.SecondCreationEmpties`, `OverlayLimits.SecondCreationOverwrites` |
| a live volume keeps its layer | `LateTeardown.LayerSafeExact` | `LateTeardown.TeardownEmpties` |
| an edit of a root stays in the root | `OverlayLimits.RootEditExact` | `OverlayLimits.RootEditShows` |
| recovery changes nothing | `OverlayLimits.RecoverKeepsLayersExact`, `OverlayLimits.RecoverKeepsViewExact` | `OverlayLimits.RecoverLosesWrite` |
| recovering twice is recovering once | `OverlayLimits.RecoverTwiceExact` | `OverlayLimits.RecoverTwiceDiffers` |
| a destruction keeps the links sound | `Lifecycle.ChildrenFirstExact` | `LifecycleLimits.CycleReachable` |
| an accepted creation's promise can be found | `AsyncLimits.FoundExact` | `AsyncLimits.PromiseDropped` |
| properties survive a store and load | `Metadata.PropertiesRoundTripExact` | `Metadata.InvalidNameIsLost` |
| a privilege change leaves every volume's owners right | `Ownership.SetPrivilegedExact` | `Ownership.RootChangeLeaks` |
| a walk leaves no file of the id it maps away | `IdMapping.OwnersExact` | `IdMapping.StuckOwner` |
| toggling privilege restores owners | `IdMapping.ToggleExact` | `IdMapping.ToggleLoses` |

Results that a reader of the code may not expect:

- Recovery after a restart copies each layered parent's layer over its child's once more, so a
  child that rewrote a file its parent's layer has loses that write
  (`OverlayLimits.RecoverUndoesWrite`). A volume listed before its parent can need a second
  restart to get what the parent got in the first.
- Layer directories go by handle alone. A second creation of a live handle can only fail, and
  before it does it may copy another volume's layer into the live one, or remove the live
  one's layer on cleaning up. A volume destroyed without its layer being removed shows its
  files again when the handle is created anew.
- Volumes over a root share the root's files. Changing a root's privilege changes the owners
  that volumes over it show, against their own flag (`Ownership.RootChangeLeaks`).
- A destruction removes the layer after the volume has left live, and creations take no lock: a
  handle created anew meanwhile ends up live and empty (`LateTeardown.TeardownEmpties`).
- A copy-on-write creation that asks for its own parent's handle, published after that parent
  was destroyed, becomes its own parent. The documented rule that children go before parents,
  extended to creations in flight, is exactly what prevents dangling links; it also keeps the
  chain above a creation's parent still while the driver reads it link by link without a lock.
- A cancel removes whatever promise its handle has by then, so of two cancels of one creation
  the later can drop the promise of a resubmission, whose volume is live and whose check then
  finds nothing.
- A property does not survive a store and load if its name is not valid UTF-8, which a name
  taken from a request path can be (api/volume_server.go:345); values come decoded from JSON.
- volume/driver/overlay_linux.go:58-64 says that unmounting what is not mounted is ignored,
  but the comparison is with `os.ErrInvalid`, which that error is not, so the call returns the
  error. The model follows the code.

## Model

| member | source | states |
|---|---|---|
| `Forest.Acyclic` | volume/filesystem.go:231-249 | with well-founded links no volume is its own proper ancestor |
| `Forest.RootIsTheOnlyTop` | volume/driver/overlay_linux.go:162-174 | every chain of parents ends, at one volume without a parent and at no other |
| `Overlay.OverlayDriver.BindMount` | volume/driver/overlay_linux.go:180-193 | makes the layer directory and mounts it on the data directory, exactly if neither call fails; on failure nothing is mounted and at most the directory was made |
| `Overlay.OverlayDriver.OverlayMount` | volume/driver/overlay_linux.go:195-221 | mounts the child's layer over whatever is mounted at the lower volume at that time, exactly if neither call fails; failure as above |
| `Overlay.OverlayDriver.FindRootParent` | volume/driver/overlay_linux.go:144-178 | succeeds exactly if every link of the chain can be read and a layered parent's layer is there and can be copied; then the loop has ended at the unique root and the parent's layer is merged into the child's exactly when the parent has a parent; a failure leaves a part of it merged and touches no other layer |
| `Overlay.OverlayDriver.CreateVolume` | volume/driver/overlay_linux.go:45-53 | exactly if no call fails the new volume has its layer bound to it; failure leaves at most an empty layer directory |
| `Overlay.OverlayDriver.CreateCopyOnWriteLayer` | volume/driver/overlay_linux.go:79-95 | the child is its layer over the root of its chain, with the exact condition of success; on failure nothing is mounted and the child's layer has gained a part of its parent's |
| `Overlay.OverlayDriver.Recover` | volume/driver/overlay_linux.go:97-142 | on success every live volume has the mount it had at creation, so every root is mounted before an overlay uses it, and the layers are the recovery function of the old ones; on failure that holds of the volumes recovered so far, which are a prefix of roots then layered volumes, and at most one layer more was touched; where no call fails and every live volume has its layer, it succeeds |
| `Overlay.OverlayDriver.RecoverCows` | volume/driver/overlay_linux.go:129-139 | the second loop recovers the layered volumes in listing order up to the first failure |
| `Overlay.OverlayDriver.BindRoots` | volume/driver/overlay_linux.go:97-127 | the first loop mounts exactly the roots and collects exactly the layered volumes in listing order |
| `Overlay.OverlayDriver.DestroyVolume` | volume/driver/overlay_linux.go:55-77 | succeeds exactly on a mounted volume if no call fails, and then removes its mount and layer; a failure touches nothing else and can have removed only some paths of that layer |
| `Overlay.OverlayDriver.Create` | volume/repository.go:150-199 | a whole creation over the driver, renames and deferred cleanup included, is the creation step of the history or leaves debris under its own handle outside live; of a live handle it fails, leaves every live mount alone and leaves the shared layer in one of the endings settled by `OverlayLimits.SecondCreationExact`; where no call fails it succeeds exactly for a free name with its parent's layer there, and what is not published is cleaned up |
| `Overlay.OverlayDriver.Destroy` | volume/filesystem.go:251-269 | a whole destruction over the driver is the destruction step of the history, or one that failed, or changes nothing; where no call fails it succeeds exactly for a live, mounted volume whose name is free in dead |
| `Overlay.OverlayDriver.Abandon` | volume/repository.go:161-166 | the deferred destruction touches nothing but the handle's own layer and its places outside live |
| `Overlay.NaiveDriver.CreateVolume` | volume/driver/naive.go:12-14 | exactly for a new name, if the call does not fail, it is the creation step of the reference history, which the overlay driver refines; otherwise nothing changes |
| `Overlay.NaiveDriver.CreateCopyOnWriteLayer` | volume/driver/naive.go:20-25 | is the copy-on-write step of the reference history: the child has all that its parent has, and a new child nothing else; even a failing copy touches no other volume |
| `Overlay.NaiveDriver.DestroyVolume` | volume/driver/naive.go:16-18 | is the destruction step of the reference history; even a failing removal touches no other volume |
| `Overlay.CowShowsParent` | volume/driver/overlay_linux.go:79-95 | a new copy-on-write volume at any depth shows exactly what its parent shows |
| `Overlay.EditShown` | volume/driver/overlay_linux.go:195-221 | a write or deletion through a volume, with whiteouts in its layer, is that write or deletion of what the volume shows |
| `Overlay.OthersKept` | volume/driver/overlay_linux.go:79-95 | no legal operation changes what another volume shows |
| `Overlay.HistoriesCover` | volume/repository.go:84-199 | the histories of the refinement have everything that can happen to a handle, apart from what `OverlayLimits` settles |
| `Overlay.StepKeepsInv` | volume/driver/overlay_linux.go:45-95 | every legal operation keeps the links well-founded and every live volume mounted as one layer over its root |
| `Overlay.StepRefines` | volume/driver/naive.go:12-25 | one operation of both drivers keeps them showing the same volumes with the same contents |
| `Overlay.OverlayRefinesNaive` | volume/driver/overlay_linux.go:45-221 | after every history of creations, copy-on-write creations at any depth, writes, deletions and destructions, and of creations and destructions that fail and leave anything under their handle, each volume shows what a full copy would show |
| `OverlayLimits.UnderlayExact` | volume/driver/overlay_linux.go:155-160 | what lies under a copied layer is hidden if and only if each path only it has shows as without it |
| `OverlayLimits.LeftoverRootExact` | volume/driver/overlay_linux.go:180-193 | a root created over a leftover layer shows nothing if and only if the leftover has no file |
| `OverlayLimits.LeftoverShows` | volume/driver/overlay_linux.go:223-229 | the history in which a destroyed volume's file shows in a new volume |
| `OverlayLimits.LeftoverLayerExact` | volume/driver/overlay_linux.go:223-229 | a copy-on-write creation over a leftover layer shows the parent if and only if no leftover path that is not overwritten differs from the root |
| `OverlayLimits.SecondCreationHarmless` | volume/driver/overlay_linux.go:55-77 | a second creation of a live handle leaves the live volume as it was however it ends if and only if, beforehand, each path it would copy shows the same in the volume and the volume's layer is without effect |
| `OverlayLimits.SecondCreationExact` | volume/driver/overlay_linux.go:155-160 | for each ending: stopped before the cleanup the live volume shows the same if and only if each copied path does, and after a cleanup, whole or partial, if and only if that holds of the copied paths left and every removed path was without effect |
| `OverlayLimits.SecondCreationAboveExact` | volume/driver/overlay_linux.go:195-221 | a volume layered over the live one shows the same if and only if its own layer covers every path at which the live one's layer now shows something else |
| `OverlayLimits.SecondCreationFrame` | volume/driver/overlay_linux.go:223-229 | every other volume shows the same |
| `OverlayLimits.SecondCreationEmpties` | volume/driver/overlay_linux.go:55-77 | a written root is empty after the cleanup of a second creation |
| `OverlayLimits.SecondCreationOverwrites` | volume/driver/overlay_linux.go:155-160 | on any disk a second creation that fails at its mount makes the live volume show the other volume's version of a file they both have |
| `OverlayLimits.EditBelowExact` | volume/driver/overlay_linux.go:195-221 | an edit under a layer leaves the view alone if and only if the layer has the path or the edit changes nothing |
| `OverlayLimits.RootEditExact` | volume/driver/overlay_linux.go:195-221 | an edit of a root keeps the refinement if and only if every volume over it has the path in its own layer, or the edit changes nothing |
| `OverlayLimits.RootEditShows` | volume/driver/overlay_linux.go:195-221 | a file written to a root appears in the volume over it |
| `OverlayLimits.RecoveredLayer` | volume/driver/overlay_linux.go:129-139 | recovery turns each layered volume's layer into its old value overridden by its parent's layer as that is when the volume is reached |
| `OverlayLimits.RecoverKeepsLayersExact` | volume/driver/overlay_linux.go:97-178 | recovery keeps all layers if and only if each already has all that its parent's layer has |
| `OverlayLimits.RecoverKeepsVolumes` | volume/driver/overlay_linux.go:97-178 | with nested layers every volume shows after recovery what it showed before the restart |
| `OverlayLimits.RecoverKeepsViewExact` | volume/driver/overlay_linux.go:97-178 | what one layered volume shows survives recovery if and only if each path of the layer laid over it shows the same there as in the volume |
| `OverlayLimits.OverrideExact` | volume/driver/overlay_linux.go:155-160 | overriding a layer keeps the view if and only if the overriding layer shows the same at each of its paths |
| `OverlayLimits.RecoverUndoesWrite` | volume/driver/overlay_linux.go:97-178 | on any disk, a write in a grandchild of a root to a path its parent's layer has is undone by recovery |
| `OverlayLimits.RecoverLosesWrite` | volume/driver/overlay_linux.go:97-178 | the smallest disk on which recovery changes what a volume shows |
| `OverlayLimits.RecoverTwiceExact` | volume/driver/overlay_linux.go:97-178 | a second recovery changes no layer if and only if each layered volume listed before its layered parent already has what the first recovery lays over the parent |
| `OverlayLimits.RecoverTwice` | volume/driver/overlay_linux.go:97-178 | in particular if parents are listed first |
| `OverlayLimits.RecoverTwiceDiffers` | volume/driver/overlay_linux.go:97-178 | with children listed first a second recovery changes a layer again |
| `Lifecycle.LifecycleSafety` | volume/filesystem.go:163-337 | over every run each volume instance goes only init, live, dead, gone, or init, dead, gone, or init, gone |
| `Lifecycle.LiveSlotKept` | volume/filesystem.go:283-299 | a live slot is never overwritten |
| `Lifecycle.LiveVolumesComplete` | volume/repository.go:150-199 | at every point of every run each live volume has its properties, its privileged flag and its data directory |
| `Lifecycle.CreationOutcome` | volume/repository.go:150-199 | nothing of a failed creation is ever live; a successful one has the handle, properties, flag and parent link asked for as long as it is live |
| `Lifecycle.EffectMovesForward` | volume/filesystem.go:251-337 | no system call moves any instance backwards |
| `Lifecycle.PlanIsSound` | volume/filesystem.go:98-337 | each call touches only the directory its process owns, and keeps the parts its creation has stored |
| `Lifecycle.StepIsSound` | volume/repository.go:150-199 | so does every step of a run, a new request's first one included |
| `Lifecycle.CallKeepsInv` | volume/repository.go:150-199 | a call of one process keeps the whole invariant |
| `Lifecycle.CallKeepsProcesses` | volume/repository.go:150-199 | a call of one process keeps every other process's directory, instance and outcome |
| `Lifecycle.RunKeepsInv` | volume/repository.go:150-199 | the invariant holds in every reachable state |
| `Lifecycle.StepKeepsLinks` | volume/filesystem.go:305-324 | if children go first, no step makes a link of a live or init volume dangle |
| `Lifecycle.ParentForest` | doc.go:23-24 | in every state reached by destroying children first, the parent links of live volumes are closed and acyclic |
| `Lifecycle.ChildrenFirstExact` | doc.go:23-24 | a destruction keeps the links sound if and only if no init or live child and no creation in flight depends on the volume |
| `LifecycleLimits.CycleReachable` | volume/filesystem.go:283-324 | without the rule, from every reachable state and for every live volume whose name is free in init and dead, a state with that volume as its own parent is reachable |
| `LifecycleLimits.LiveReachable` | volume/repository.go:150-199 | every name can be made live, so such states exist |
| `LateTeardown.LayerSafeExact` | volume/driver/overlay_linux.go:55-77 | no step but a user's write can change the layer of a volume that stays live if and only if no process is about to call the driver for that handle |
| `LateTeardown.DriverCallsAre` | volume/driver/overlay_linux.go:55-95 | the driver's calls do to the layers what the operations of the overlay histories do |
| `LateTeardown.LayerSurvives` | volume/filesystem.go:251-269 | while a volume stays live, nobody was at work on its handle and nobody starts another creation of it, its layer changes by its users' writes only |
| `LateTeardown.TeardownEmpties` | volume/filesystem.go:251-337 | from every reachable state a volume's late teardown can empty the live volume that has its handle by then |
| `ParentChains.AncestorsStable` | volume/filesystem.go:231-249 | in a run in which children go first, no ancestor of the parent of a creation in flight changes |
| `ParentChains.ReadsAreBounded` | volume/driver/overlay_linux.go:162-174 | links read one at a time between other requests' steps come to an end |
| `ParentChains.ReadsEndAtRoot` | volume/driver/overlay_linux.go:162-174 | and the volume they end at is the root of the parent, as it was at the start and as it is throughout |
| `Filesystem.SeriesIsRun` | volume/repository.go:150-199 | a series of calls of one process is a run of the interleaved model in which only that process moves |
| `Filesystem.Filesystem.LookupVolume` | volume/filesystem.go:113-137 | found exactly when live, or an error exactly if the call fails |
| `Filesystem.Filesystem.Parent` | volume/filesystem.go:231-249 | the volume one step up the chain of ancestors, or an error; with sound links it never misses a parent |
| `Filesystem.Filesystem.InitRawVolume` | volume/filesystem.go:163-186 | a new directory in init with empty properties, exactly if the name is free there and no call fails; a failure leaves at most a directory under that name |
| `Filesystem.Filesystem.NewVolume` | volume/filesystem.go:98-111 | as above with the data directory made |
| `Filesystem.Filesystem.NewSubvolume` | volume/filesystem.go:305-324 | as above with the parent link made |
| `Filesystem.Filesystem.DestroyInit` | volume/filesystem.go:251-269 | where no call fails the directory is gone unless one in dead is in the way; in any case no other directory changes, and one already in dead is not overwritten |
| `Filesystem.Filesystem.Initialize` | volume/filesystem.go:283-299 | moves the directory to live exactly if that name is not live and the call does not fail |
| `Filesystem.Filesystem.Materialize` | volume/cow_strategy.go:16-34 | for each strategy an init directory with the right parent link, exactly if the name is free in init, the parent is live and no call fails |
| `Filesystem.Filesystem.Complete` | volume/repository.go:168-192 | both metadata files are stored before the volume is published, which happens exactly if its name is not live and no call fails |
| `Filesystem.Filesystem.CompleteOrDestroy` | volume/repository.go:161-192 | the volume is published complete, or the deferred destruction has run: where no call fails the init directory is gone and dead is as it was, unless a directory in dead was in the way |
| `Filesystem.Filesystem.CreateVolume` | volume/repository.go:150-199 | publishes exactly the volume asked for, exactly if its name is free, its parent live and no call fails; otherwise live is untouched, and where no call fails init and dead are as they were unless a directory in dead was in the way of the cleanup; every outcome is a series of steps of one process of the interleaved model |
| `Cleanup.FailedCreationCleansUp` | volume/repository.go:161-166 | over every run, a creation none of whose calls failed of itself and that failed after making a directory was refused by a live volume of its name, and its directory is gone if and only if no directory in dead was in the way of the cleanup, and otherwise still in init |
| `Cleanup.FailedEarly` | volume/cow_strategy.go:16-34 | one that failed before that found its name taken in init or its parent not live |
| `Cleanup.FailedDestruction` | volume/repository.go:84-112 | a destruction none of whose calls failed of itself ends without success only if it found no volume, or a directory of that name in dead |
| `Filesystem.Filesystem.DestroyVolume` | volume/repository.go:84-112 | takes the volume out of live whole or not at all, with the leftovers of each failure, and succeeds exactly for a live volume whose name is free in dead if no call fails; every outcome is a series of steps of one process |
| `Filesystem.Filesystem.Teardown` | volume/filesystem.go:330-337 | removes the directory in dead exactly if no call fails |
| `DestroyTree.UnderIsAncestry` | volume/repository.go:130-145 | being under a volume is being reachable along parent links |
| `DestroyTree.SiblingsApart` | volume/repository.go:130-145 | the branches of two children have nothing in common |
| `DestroyTree.BranchIntact` | volume/repository.go:130-145 | after some branches are gone, the next child's branch is as it was in the listing |
| `DestroyTree.TookOneMore` | volume/repository.go:139-144 | destroying one more branch extends the branches destroyed, children first |
| `DestroyTree.TookTheRest` | volume/repository.go:147-147 | with all branches gone, destroying the volume completes the tree |
| `DestroyTree.Repository.ListVolumes` | volume/filesystem.go:139-161 | lists exactly the live volumes |
| `DestroyTree.Repository.DestroyVolume` | volume/repository.go:84-112 | removes a live volume, reports a missing one |
| `DestroyTree.Repository.DestroyVolumeAndDescendants` | volume/repository.go:114-148 | terminates, destroys exactly the volume and its descendants, each child before its parent, leaves all others unchanged, and never fails on its stale listing |
| `Locker.LockManager.constructor` | volume/locker.go:25-30 | starts with no entries |
| `Locker.LockManager.Register` | volume/locker.go:32-43 | the mutex section of Lock: one entry for each key, counted |
| `Locker.LockManager.Send` | volume/locker.go:44-44 | the channel send goes through exactly when the slot is free |
| `Locker.LockManager.Unregister` | volume/locker.go:47-59 | the mutex section of Unlock: the entry goes with its last session; a missing key is the panic |
| `Locker.LockManager.Receive` | volume/locker.go:60-60 | the channel receive goes through exactly when the slot is taken |
| `Locker.StepKeepsInv` | volume/locker.go:32-61 | every step keeps counts exact, entries distinct, and each slot taken exactly when one session occupies it |
| `Locker.RunKeepsInv` | volume/locker.go:32-61 | that invariant holds in every reachable state |
| `Locker.MutualExclusion` | volume/locker.go:32-61 | at no point of any run do two sessions hold the same key, even while a deleted entry is being drained |
| `Locker.Bookkeeping` | volume/locker.go:32-61 | a key is in the map if and only if a session is registered on it, and its count is the number of those sessions |
| `Locker.UnlockIsSafe` | volume/locker.go:47-61 | Unlock never panics, finds the entry its session took, and never blocks on its receive |
| `Locker.WaiterProgress` | volume/locker.go:32-61 | a waiting session can go ahead, or the one session in its way can take its next step |
| `Locker.QuiescentIsEmpty` | volume/locker.go:47-61 | once nobody is registered no entry is left in the map |
| `PropertyUpdates.StepKeepsInv` | volume/repository.go:262-299 | every step of every call keeps what the calls in their critical sections have seen, and that the disk is what the logs mean |
| `PropertyUpdates.RunKeepsInv` | volume/repository.go:262-299 | over every run what the calls in their critical sections have seen stays so, and the disk is what the logs mean |
| `PropertyUpdates.NoLostUpdate` | volume/repository.go:262-299 | at every point of every run a volume's properties are its successful updates applied one whole operation at a time, in critical-section order |
| `PropertyUpdates.ChangesMatchOutcomes` | volume/repository.go:84-112 | a call that succeeded changed its own volume exactly once, by the name and value or the destruction it was asked for, and any other call changed nothing |
| `PropertyUpdates.StoreHitsLiveVolume` | volume/repository.go:262-299 | every store and every rename hits a live volume in the state the call saw |
| `PropertyUpdates.LookupDecides` | volume/repository.go:272-280 | whatever other calls do, a call answers what its lookup called for |
| `PropertyUpdates.OutcomeExact` | volume/repository.go:262-299 | every call that is over reports that the volume does not exist if and only if its handle was not live at its lookup, and success otherwise |
| `PropertyUpdates.SomeCallMoves` | volume/repository.go:263-264 | no call is stuck: it or the one that holds the lock it waits for can take its next step |
| `Promises.Promise.IsPending` | volume/promise.go:35-44 | pending exactly while neither field is set |
| `Promises.Promise.GetValue` | volume/promise.go:46-58 | the settled outcome, or an error while pending |
| `Promises.Promise.Fulfill` | volume/promise.go:60-74 | settles a pending promise; a settled one is unchanged and tells canceled from other outcomes |
| `Promises.Promise.Reject` | volume/promise.go:76-87 | settles a pending promise; a settled one is unchanged |
| `Handlers.VolumeServer.CreateVolumeAsync` | api/volume_server.go:82-111 | a handle that has a promise is refused; any other gets a new pending one, and no other handle's promise changes |
| `Handlers.VolumeServer.CreateVolumeAsyncCheck` | api/volume_server.go:153-198 | tells the outcome of the handle's promise, that it is pending, or that there is none; the internal error is never replied |
| `Handlers.VolumeServer.CreateVolumeAsyncCancel` | api/volume_server.go:123-151 | the handle is no longer listed, whoever has its promise finds it settled and canceled if it was pending, and no other promise changes |
| `Handlers.SubmitMatches` | volume/promise_list.go:28-39 | an uninterrupted submission in the interleaved model lists what the handler lists |
| `Handlers.CancelMatches` | volume/promise_list.go:41-53 | an uninterrupted cancel in the interleaved model removes, settles and replies what the handler does |
| `Handlers.CheckMatches` | api/volume_server.go:153-198 | an uninterrupted check in the interleaved model replies what the handler replies |
| `AsyncCreate.AsyncOutcome` | api/volume_server.go:651-737 | when an accepted creation has ended, its promise is fulfilled and its volume is live unless someone else destroyed it, or its promise is rejected or canceled and no volume of it is live unless its own destroy call failed |
| `AsyncCreate.FulfilledIsLive` | api/volume_server.go:704-737 | without outside destructions a fulfilled creation is live, even when handles are reused |
| `AsyncCreate.NobodyLost` | api/volume_server.go:710-732 | withdrawing a canceled creation never hits the volume of another creation |
| `AsyncEndings.EndingExact` | api/volume_server.go:651-737 | an ended creation was refused if and only if its handle was listed, rejected if and only if its CreateVolume failed or met a live handle, fulfilled if and only if neither happened and no cancel came first, and left its volume behind if and only if its own destroy call failed on a live handle |
| `AsyncEndings.NothingLeftBehind` | api/volume_server.go:713-728 | where no destroy call of its own fails, an ended creation whose promise is not fulfilled has no live volume |
| `AsyncEndings.RejectedWith` | api/volume_server.go:704-708 | a rejected creation's promise holds the error of its own CreateVolume, unless a cancel came first |
| `AsyncEndings.CanceledBySomebody` | api/volume_server.go:139-146 | a promise is canceled only by a cancel that found it pending |
| `AsyncCreate.WriteOnce` | volume/promise.go:60-87 | after a promise is settled nothing in any run changes it |
| `AsyncCreate.ChecksAgree` | api/volume_server.go:153-198 | once a check has read an outcome, every later check that reads the same promise reads the same |
| `AsyncCreate.CheckNeverInternal` | api/volume_server.go:169-179 | a check that found its promise settled never meets it pending |
| `AsyncCreate.ListedOnce` | volume/promise_list.go:28-39 | a promise is listed under the handle of its own creation only |
| `AsyncLimits.FoundExact` | api/volume_server.go:148-148 | an accepted creation's promise is found under its handle if and only if no cancel of that handle has reached its last step since |
| `AsyncLimits.PromiseDropped` | api/volume_server.go:123-151 | from every reachable state two cancels and a resubmission lead to a live, fulfilled creation that a check does not find |
| `AsyncLimits.CancelAlone` | api/volume_server.go:123-151 | what a cancel does when nothing interrupts it |
| `AsyncLimits.CheckAlone` | api/volume_server.go:153-198 | what a check replies when nothing interrupts it |
| `AsyncCreate.MoveKeepsInv` | api/volume_server.go:107-151 | every step keeps promises, list, volumes and stages consistent |
| `AsyncCreate.RunKeepsInv` | api/volume_server.go:82-198 | and so does every run |
| `FanOut.SendNeverBlocks` | api/volume_server.go:246-269 | no send on the error channel ever waits |
| `FanOut.SomeoneMoves` | api/volume_server.go:255-272 | the request is never stuck: while a destruction is unfinished, it or the one that holds the lock it waits for can take its next step |
| `FanOut.ReplyExact` | api/volume_server.go:272-280 | the reply is 204 if and only if each destruction succeeded or found nothing, and then none of the listed handles is live |
| `FanOut.ResultExact` | api/volume_server.go:258-266 | a destruction reports an error if and only if one of its calls failed, that there is no such volume if and only if none failed and it looked the volume up in vain, and otherwise that it destroyed it |
| `FanOut.OnlyListedGo` | api/volume_server.go:249-268 | a volume that nobody asks to destroy stays live, and no volume is destroyed twice |
| `FanOut.GoneExact` | volume/repository.go:84-112 | without failing calls a volume has left live if and only if one destruction of it reports, or will report, that it destroyed it |
| `FanOut.RepeatsAreHarmless` | api/volume_server.go:246-269 | without failing calls no goroutine reports an error, however often the list repeats a handle and whatever other clients destroy |
| `FanOut.RunKeepsInv` | api/volume_server.go:246-280 | the channel's length is the number of errors reported, each goroutine's lock session is where its step says, and what it has seen under its lock stays so |
| `Metadata.StringRoundTrip` | volume/metadata.go:83-118 | a decoded string literal is the encoded string with invalid UTF-8 replaced, and what followed is left unread |
| `Metadata.SanitizeExact` | volume/metadata.go:101-118 | replacement changes a string if and only if it is not valid UTF-8 |
| `Metadata.SanitizeIsValid` | volume/metadata.go:101-118 | what is stored is always valid UTF-8 |
| `Metadata.SelfDelimiting` | volume/metadata.go:83-118 | an encoded value followed by any bytes decodes to that value and leaves exactly those bytes |
| `Metadata.LoadAfterWrite` | volume/metadata.go:83-118 | a load after a store over any old contents gives the stored value |
| `Metadata.LastStoreWins` | volume/metadata.go:83-118 | after any series of stores of any lengths a load gives the last value |
| `Metadata.OverwriteExact` | volume/metadata.go:101-118 | a written file has the new bytes where they reach and the old ones beyond |
| `JsonText.EncodeConforms` | volume/metadata.go:117-117 | what is written is the text of the value by sections 2, 3, 4 and 7 of RFC 8259, with its strings made valid |
| `JsonText.DecodeConforms` | volume/metadata.go:94-96 | every text of such a value, behind any white space and whatever follows, is read as that value, and what follows is left |
| `JsonText.DecodeAccepts` | volume/metadata.go:94-96 | nothing else is accepted, apart from invalid bytes in strings, which are read as U+FFFD |
| `Metadata.PropertiesRoundTripExact` | volume/metadata.go:37-50 | properties survive a store and load if and only if all names and values are valid UTF-8 |
| `Metadata.InvalidNameIsLost` | volume/metadata.go:37-50 | a name of one invalid byte comes back as another name |
| `Metadata.FlagRoundTrip` | volume/metadata.go:68-81 | the privileged flag survives a store and load over any old contents |
| `Metadata.NilRoundTrip` | volume/metadata.go:37-50 | a nil map is stored as null and loads as an empty table |
| `Metadata.ListMembers` | volume/metadata.go:37-39 | a table is written out with each member once |
| `Metadata.MetadataFile.Write` | volume/metadata.go:101-118 | the file is overwritten from its start and not truncated; a missing directory is reported |
| `Metadata.MetadataFile.StoreProperties` | volume/metadata.go:37-39 | a load afterwards gives the stored properties if and only if they are valid UTF-8 |
| `Metadata.MetadataFile.LoadProperties` | volume/metadata.go:41-50 | the first value of the file; missing and malformed files are told apart |
| `Metadata.MetadataFile.StorePrivileged` | volume/metadata.go:68-70 | a load afterwards gives the stored flag |
| `Metadata.MetadataFile.IsPrivileged` | volume/metadata.go:72-81 | the first value of the file; missing and malformed files are told apart |
| `IdMapping.FindMapping` | uidgid/mapper_linux.go:53-65 | the loop computes the first matching range of size one |
| `IdMapping.FindIs` | uidgid/mapper_linux.go:13-69 | in user space one mapping sends 0 to the maximum id, the other the maximum id to 0, and both keep all else |
| `IdMapping.KernelMapIs` | uidgid/mapper_linux.go:43-51 | the kernel's reading of the ranges in closed form, both directions |
| `IdMapping.KernelMapsAgree` | uidgid/mapper_linux.go:13-69 | for every maximum id of at least 1 the kernel's map is injective, agrees with the user-space map wherever it is defined, and the two mappings are inverse bijections |
| `IdMapping.UnprivilegedCovers` | uidgid/mapper_linux.go:28-41 | exactly the ids from 1 to the maximum are visible in an unprivileged namespace |
| `IdMapping.StreamKeepsOwner` | volume/stream_in_out_linux.go:149-169 | streaming out of and into unprivileged volumes keeps an owner if and only if it is not 0 |
| `IdMapping.Namespacer.TranslatePath` | uidgid/translator.go:34-52 | where both calls work the owner is mapped and the mode and everything else stays; a failing chown leaves the file as it was, a failing chmod leaves its set-id bits cleared |
| `IdMapping.ModeRestored` | uidgid/translator.go:43-49 | changing an owner costs a regular file its set-id bits and setting its mode again restores them |
| `IdMapping.AttemptTwice` | uidgid/translator.go:34-52 | mapping a file twice is mapping it once, failures included, so hard links are harmless |
| `IdMapping.Namespacer.NamespacePath` | uidgid/namespace.go:22-35 | the walk maps every file of the tree that it can change, however often it meets it |
| `IdMapping.OwnersExact` | uidgid/namespace.go:22-35 | no file of the id mapped away is left if and only if no file that cannot be changed has it |
| `IdMapping.StuckOwner` | uidgid/translator.go:34-52 | a file of id 0 whose owner cannot be changed keeps it |
| `IdMapping.CopiesFollowFlag` | volume/driver/naive.go:20-25 | with a driver that gives each volume files of its own, after any run of creations and privilege changes no unprivileged volume has a file of id 0 and no privileged volume one of the maximum id |
| `IdMapping.StepDoes` | volume/repository.go:329-361 | there an operation that can be carried out sets the flag asked for, exchanges the one id in the files it starts from and touches no other volume; any other changes nothing |
| `Ownership.WalkMaps` | uidgid/namespace.go:22-35 | over the overlay driver a walk changes the owners of exactly the files it meets in what the volume shows, and no layer but the volume's own |
| `Ownership.PrivilegeChangeExact` | volume/repository.go:329-361 | after a change of a root's privilege a volume over it keeps its owners right if and only if its flag is the one set or its layer has every path at which the root had a file of the id mapped away |
| `Ownership.SetPrivilegedExact` | volume/repository.go:329-361 | so a privilege change keeps every volume right if and only if that holds of all volumes over the one that changes |
| `Ownership.ServeKeepsSound` | volume/repository.go:180-184 | creations with any contents, copy-on-write creations, such privilege changes, edits, destructions and failures keep every volume right |
| `Ownership.ServeDoes` | volume/repository.go:348-358 | a creation or privilege change sets the flag it was asked to set and no other, shows exactly the files it was given with 0 and the maximum id exchanged one way, and leaves every volume alone that is not its own or layered over it |
| `Ownership.ServeOtherDoes` | volume/repository.go:84-112 | edits, destructions and failures change no flag and no other volume |
| `Ownership.OwnershipFollowsFlag` | volume/repository.go:329-361 | in every run of these over the overlay driver no unprivileged volume shows a file of id 0 and no privileged one a file of the maximum id |
| `Ownership.TwoVolumesReached` | volume/driver/overlay_linux.go:195-221 | a run to a root with one file and an unprivileged volume over it |
| `Ownership.RootChangeLeaks` | volume/repository.go:329-361 | there a file of the maximum id becomes one of id 0 in the unprivileged volume when the root is made privileged |
| `IdMapping.RepeatChangesNothing` | volume/repository.go:329-361 | repeating a privilege change changes nothing |
| `IdMapping.ToggleExact` | volume/repository.go:329-361 | toggling there and back restores a tree if and only if no file had the id that the first change maps to |
| `IdMapping.ToggleLoses` | volume/repository.go:329-361 | a file of the maximum id ends up with id 0 |
| `Btrfs.WalkFindsAll` | volume/driver/btrfs.go:41-64 | a path is found if and only if following its names down the tree leads to a directory that is a subvolume |
| `Btrfs.WalkIsOuterFirst` | volume/driver/btrfs.go:41-64 | the walk finds each subvolume once and before all that lie inside it |
| `Btrfs.BtrfsDriver.FindSubvolumes` | volume/driver/btrfs.go:41-64 | the walk's callback appends the subvolumes in walk order |
| `Btrfs.BtrfsDriver.DestroyVolume` | volume/driver/btrfs.go:38-74 | on a disk that has the tree's subvolumes nesting never makes a deletion fail: it succeeds if and only if no deletion of one of them fails of itself, every subvolume of the volume is then gone and all others stay; otherwise it has stopped at the last one of the walk that cannot be deleted |
| `Btrfs.BtrfsDriver.DeleteBackwards` | volume/driver/btrfs.go:66-71 | the loop from the last path to the first |
| `Properties.HasProperties` | volume/properties.go:5-18 | with its length shortcut it is exactly inclusion of the queried properties |
| `Properties.UpdateProperty` | volume/properties.go:20-30 | the receiver's properties with the one changed or added |
| `Listing.PositionsExact` | volume/repository.go:213-228 | the positions of each class are exactly its members, in order and without repetition |
| `Listing.FourWays` | volume/repository.go:213-228 | matching, other, corrupted and vanished volumes share out the listing |
| `Listing.ClassesExact` | volume/repository.go:559-576 | the four classes in terms of what the two metadata files hold |
| `Listing.ListVolumes` | volume/repository.go:201-231 | reports exactly the matching volumes, each with its handle and what was read from its files, and the corrupted handles, in listing order |

## Left out

- Mount, unmount, cp and btrfs commands: only an assumed meaning on maps from paths to contents; whiteouts are per path, so opaque directories, renames of directories and overlay's work directory are not modelled.
- Overlay.OverlayRefinesNaive: assumes a fresh layer at each creation, handles created once while live, no edit of a root that has volumes over it, no recovery, and no handle named `work`, whose layer directory would be the parent of all work directories. `OverlayLimits` settles the first four exactly; the last is not modelled.
- Overlay.OverlayDriver.FindRootParent: requires well-founded links, which `Lifecycle.ParentForest` gives, and reads them all from one moment; `ParentChains` shows that reading them one at a time gives the same. On cyclic links the code does not terminate.
- Lifecycle.LifecycleSafety: os.RemoveAll, os.Rename and a metadata store are one step each; the repository's locks are left out, which only adds interleavings. Changing owners before publication is folded into the step that publishes.
- DestroyTree.Repository.DestroyVolumeAndDescendants: runs alone and without input/output errors, as the code needs in order to promise this.
- PropertyUpdates.NoLostUpdate: no input/output errors; loading and storing a metadata file are one step each. A run of SetPrivileged under the same lock is not part of it.
- Promises.Promise.GetValue: it takes its read lock twice; the locks of promises and of the list are taken as atomic steps and no freedom from deadlock is claimed for them.
- AsyncCreate.AsyncOutcome: CreateVolume and DestroyVolume are one step each here; `Lifecycle` and `Filesystem` take them apart.
- FanOut.ReplyExact: other clients may destroy volumes meanwhile but not create them.
- LateTeardown.LayerSurvives: mounts are left out here; the layer alone decides what a volume shows.
- JsonText.DecodeConforms: Go also decodes surrogate escapes, member values that are null, and nested values into typed variables; none of these is ever written by the encoder, and the decoder here refuses them. Members may come in any order, Go sorts them.
- Ownership.OwnershipFollowsFlag: a privilege change and the store of its flag are one step, every chown works (`IdMapping.OwnersExact` says what failing ones leave), and users give files no owner that the volume must not have; a change of a root's privilege is allowed exactly where `Ownership.SetPrivilegedExact` finds it harmless.
- Listing.ListVolumes: what reading each metadata file gives is an input.
- HTTP decoding, routing, status codes other than those of the destroy-many request, and logging in `api`: plumbing.
- The client, its retries and back-off: network code.
- tar, gzip and zstd streaming, peer-to-peer streaming and interface discovery: foreign processes and input/output.
- `fs/btrfs.go`, `baggageclaimcmd`, `cmd`, `kernel`, the parsing of `/proc` id maps, strategy decoding and query conversion: scripts, start-up wiring and easy members only.
- GetVolume, GetPrivileged and VolumeParent: lookups with a single read.
- The contents an import copies: host files; an import is a creation that may fail and then leaves its init directory behind.
