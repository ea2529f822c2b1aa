# Evreos, verified

Evreos is a browser shell written in Rust with gate scripts in Python around it. This project models
its state machines, scanners, graph walks and transactional writes in Dafny and proves what they are
for. Where the source updates fields or runs loops, so does the model: a class or a method is proved
to compute a function on values, and the theorems are about that function over every input and every
run. `dafny verify dfyconfig.toml` checks all of it.

**The headless engine.** `Engine` gives the engine's whole state and each call as a function on it;
`HeadlessEngine` is the same engine as an object whose methods update its fields, each proved to take
the object's value through the matching function. The state keeps two histories the engine does not:
every event ever emitted, and every event drained. `NavigationContract` states the rendering seam's
ordering promise clause by clause and the grammar of the scripts that keep it, and proves the two
equivalent. `EngineRuns`, `EngineViews` and `EngineLife` prove what holds of every run: the contract
for every navigation, order and completeness of the drain, ids never reused, page and epoch as a
replay of the events, one active surface, and what becomes of a surface's data. `EngineOutcomes` and
`EngineCalls` state what each call comes to, by what was scripted. `Downloads` is the handshake, with a
log of what became of each event, and `DownloadTransfers` what its calls transfer. Facts of the code that its documentation does not
say: a same-document move is one event with no start, a hosting's start already carries the advanced
epoch, neither looks at whether the surface is closed, so that either puts a page back on a closed one
(`ClosedShowsOnlyWhatIsPutThere`), and cancelling an id nobody holds still emits a
cancellation.

One documented promise is false of the code as it stands: a cancelled download may finish, when its id
is cancelled before an acceptance is given it. `CancelledBeforeAcceptanceStillFinishes` is such a run,
and `CancelledNeverFinishes` the exact condition.

**Default-browser registration.** `Registration` is the plan of values, `Registry` a store in which
any call may fail and a failed removal may leave any part behind, with every state and every failure
recorded for proof. `RegistrationStates`, `RegistrationRemoval`, `RegistrationUndo` and
`RegistrationTransaction` prove the transaction over all failures: other applications' values, the order
of the shared pointer against everything else in every state passed, the undo of a first registration,
and that removal undoes registration. `RegistrationAssociations` follows a finished registration from the
system's list to the executable.

The promise that the system never lists capabilities that are not all written is false of one family of
runs. Every write succeeds, the listing of pointers that follows fails, and so does a call of the undo's
own pointer removal, whose error is dropped; the undo then removes the keys under the pointer, which
stays. `KeysRemovedUnderAPointerDangle` shows what is left, and `Register` states that the order holds in
every state before that whatever call fails, and exactly which runs break it. Unregistering drops no
error but goes on after one in the same way: `Remove` states when a pointer is there during the keys' turn.

**The egress chokepoint.** `Egress` is the verdict, `EgressCheck` the loops that compute it, and
`EgressPaths` what one walk means in paths of the dependency graph, and `EgressVerdict` exactly what the
whole check reports.

**Blanking Rust source.** `RustLex` is the scanner and `RustLexLaws` its laws: offsets, regions,
nested comments, and how the two modes compose. `RustLexForms` gives every region in its own terms.

**Import.** `Address`, `AddressLaws` and `AddressRules` cover the cleaning of addresses. `Bookmarks`, `ImportStores`
and `ImportWrite` cover the write to two stores with its rollback; the stores are those of
`crates/evreos-shell/src/store`, with a save that may fail. One promise is false as stated: the member
store keeps folders and bookmarks in two lists, so an imported forest does not always read back in the
order it was read. `BookmarkOrder` proves that a folder's reading settles the order if and only if no
level mixes folders and bookmarks, and that nothing but the interleaving is lost.

**Logical lines.** `LogicalLines` is the folding of workflow files and the flow scanner, and
`LogicalLinesLaws` what they keep. `LogicalLinesRules` and `LogicalLinesFolds` state which lines are
joined and to what, and `FlowTrees` that the scan of a collection finds exactly its pairs.

**Budget gates.** `Wakes` proves the wake gate's count against all windows and phases. It is exact but
for its clamp at the largest machine integer: `ClampHidesCost` is a wake that passes and is not safe,
and `PassingIsSafeIffNothingIsClamped` the exact condition. `BudgetGates` and `BudgetVerdict` cover the
budget file's gate, the absolute and regression gates, the deferrals, and what a pass means;
`BudgetExactness` says exactly when a run passes and what is reported.

**Smaller companions.** `Members` (workspace members), `Messages` and `Catalogue` (interface
messages), `Shortcuts` and `Keymap`. A shortcut's text reads back as the shortcut except for three
kinds of character key, which `WrittenReadsBack` names exactly.

## Model

| member | source | states |
|---|---|---|
| NavigationContract.ScriptObeysContractIffItFollows | crates/evreos-engine/src/lib.rs:414-458 | A script's trace meets every clause of the ordering contract exactly when the script follows the step grammar; both directions, for every script |
| NavigationContract.PhaseDescribesTrace | crates/evreos-engine/src/lib.rs:414-458 | The grammar's phase after a script says what the whole trace so far holds: committed or not, ended or not, abandoned or not |
| NavigationContract.OwnScriptsFollow | crates/evreos-engine-headless/src/lib.rs:927-1051 | The scripts the engine writes for a page, a failure and a download with no page of its own follow the grammar |
| EngineRuns.EveryNavigationObeysTheContract | crates/evreos-engine/src/lib.rs:414-458 | In every run whose scripts follow the grammar, whatever calls and polls interleave, the events of each id, drained ones and then waiting ones, obey the contract or are the one event of a same-document move; an id not yet returned has none |
| EngineRuns.NavigationObeysIffItsScriptFollows | crates/evreos-engine-headless/src/lib.rs:927-1117 | A navigation's trace obeys the contract exactly when the script given for its address, if one was, follows the grammar, from any state: the condition on scripts is exact; one to a closed surface says nothing |
| EngineRuns.InitiatedObeysIffItsScriptFollows | crates/evreos-engine-headless/src/lib.rs:567-587 | What a page begins obeys the contract exactly when its script follows the grammar, from any state |
| EngineRuns.DrainIsInOrder | crates/evreos-engine/src/lib.rs:457-458 | What was drained, then what waits, is every observation ever emitted, in order |
| EngineRuns.IdentifiersAreNeverReused | crates/evreos-engine-headless/src/lib.rs:723-727 | The ids the calls of a run return are 0, 1, 2 and so on, so no two are equal |
| EngineRuns.MintedInSequence | crates/evreos-engine-headless/src/lib.rs:723-727 | From any state, a run returns as many ids as the counter moves, consecutively |
| EngineRuns.NextKeepsTraces | crates/evreos-engine-headless/src/lib.rs:927-1198 | One call keeps every id's trace within what the contract allows, a navigation, a hosting and a same-document move included |
| EngineRuns.RunRunsDownloads | crates/evreos-engine-headless/src/lib.rs:1281-1419 | Every engine run takes the download handshake through a run of its own, so the handshake's theorems hold of the engine |
| EngineViews.SurfaceIsReplayOfItsEvents | crates/evreos-engine-headless/src/lib.rs:1053-1198 | After any run a surface's page and epoch are a replay of the events it emitted, drained or not, and its epoch is one more than its commits, same-document moves and hostings, up to saturation |
| EngineViews.ReplayedEpochCountsMoves | crates/evreos-engine/src/lib.rs:589-622 | The replayed epoch counts changes of address from one, saturating at the 64-bit maximum |
| EngineViews.ObservationsCarryTheirEpoch | crates/evreos-engine-headless/src/lib.rs:1053-1198 | After any run every observation carries the epoch its surface's events up to it replay to, but for an announcement whose commit follows at once with the same epoch, which carries that of the commit |
| EngineViews.AnnouncementsCarryTheirEpoch | crates/evreos-engine-headless/src/lib.rs:927-1198 | From any reachable state a navigation's announcement, and that of one a page began, carries the epoch its surface's events replay to, and a hosting's the next one |
| EngineViews.NextKeepsViews | crates/evreos-engine-headless/src/lib.rs:1053-1198 | One call keeps the page and epoch of every surface equal to the replay of its log |
| EngineLife.ActiveSurfaceIsTheOneActive | crates/evreos-engine-headless/src/lib.rs:730-885 | In every reachable state the engine names a surface active exactly when that surface is in the active state, and no other is |
| EngineLife.ClosedForGood | crates/evreos-engine-headless/src/lib.rs:863-881 | A closed surface is closed in every later state, and a non-persistent one then holds and leaves no data |
| EngineLife.ClosedShowsOnlyWhatIsPutThere | crates/evreos-engine-headless/src/lib.rs:1129-1198 | In every state after a close the surface shows a page exactly if a later same-document move or hosting addressed it and no close came after that: the one way a closed surface shows a page again |
| EngineLife.PrivateIsNeverStored | crates/evreos-engine-headless/src/lib.rs:863-919 | A non-persistent surface never has an entry among the engine's persistent data |
| EngineLife.NavigatedNormalSurfaceRetains | crates/evreos-engine-headless/src/lib.rs:863-1051 | A persistent surface that accepted a navigation retains data in every later state, after its close too |
| EngineLife.SurfaceIdentifiersAreFresh | crates/evreos-engine-headless/src/lib.rs:753-779 | The id the next surface gets was never a surface's, nor a key of the persistent data |
| EngineLife.NextLives | crates/evreos-engine-headless/src/lib.rs:730-1051 | One call keeps a single active surface, ids below the counter, private surfaces unstored, and what closed or retaining surfaces promise |
| HeadlessEngineObject.NextIsSound | crates/evreos-engine-headless/src/lib.rs:389-408 | Every call keeps all the engine's invariants at once, whatever the scripts |
| HeadlessEngineObject.HeadlessEngine.constructor | crates/evreos-engine-headless/src/lib.rs:430-451 | A new engine is the initial value, with the invariant |
| HeadlessEngineObject.HeadlessEngine.WithResponse | crates/evreos-engine-headless/src/lib.rs:483-513 | The response scripted for one address and nothing else changes |
| HeadlessEngineObject.HeadlessEngine.WithDownloadSequence | crates/evreos-engine-headless/src/lib.rs:1262-1279 | The download scripted for one address and nothing else changes |
| HeadlessEngineObject.HeadlessEngine.CreateSurface | crates/evreos-engine-headless/src/lib.rs:748-780 | A surface under a new id, inactive, at the first epoch and empty; nothing else changes |
| HeadlessEngineObject.HeadlessEngine.ActivateSurface | crates/evreos-engine-headless/src/lib.rs:815-838 | An open surface becomes the active one and the one before inactive; a closed or unknown one changes nothing |
| HeadlessEngineObject.HeadlessEngine.SuspendSurface | crates/evreos-engine-headless/src/lib.rs:841-851 | An open surface is suspended and, if it was active, no surface is |
| HeadlessEngineObject.HeadlessEngine.ResumeSurface | crates/evreos-engine-headless/src/lib.rs:854-860 | Only a suspended surface is activated |
| HeadlessEngineObject.HeadlessEngine.CloseSurface | crates/evreos-engine-headless/src/lib.rs:863-880 | The surface is closed and shows nothing; its data is dropped if private and moved to the persistent store if not |
| HeadlessEngineObject.HeadlessEngine.EnsureActiveSurface | crates/evreos-engine-headless/src/lib.rs:730-745 | The active open surface, or else some open surface made active, whichever the map yields, or else a new persistent one |
| HeadlessEngineObject.HeadlessEngine.StartSurfaceNavigation | crates/evreos-engine-headless/src/lib.rs:927-1051 | The object's call computes the navigation, whose outcome by what was scripted for its address the rows of `EngineOutcomes` state in full |
| HeadlessEngineObject.HeadlessEngine.ProcessSurfaceSteps | crates/evreos-engine-headless/src/lib.rs:1053-1117 | The loop over script steps updates page, title, epoch and queue as playing the steps one by one does |
| HeadlessEngineObject.HeadlessEngine.StartNavigation | crates/evreos-engine-headless/src/lib.rs:1431-1434 | A navigation of the surface that is, or is made, active |
| HeadlessEngineObject.HeadlessEngine.EngineInitiated | crates/evreos-engine-headless/src/lib.rs:567-587 | A navigation the page began: announced and played with no request, on the active surface |
| HeadlessEngineObject.HeadlessEngine.NavigateSameDocument | crates/evreos-engine-headless/src/lib.rs:1129-1154 | One event with no start, the address changed under the title there was, the epoch advanced; no check for a closed surface |
| HeadlessEngineObject.HeadlessEngine.HostSurfaceBytes | crates/evreos-engine-headless/src/lib.rs:1161-1198 | A whole navigation at once under the identity given: started, committed, succeeded, at the advanced epoch |
| HeadlessEngineObject.HeadlessEngine.PollObservation | crates/evreos-engine-headless/src/lib.rs:1156-1158 | The oldest waiting observation, or none |
| HeadlessEngineObject.HeadlessEngine.TriggerDownload | crates/evreos-engine-headless/src/lib.rs:1290-1316 | A request event and an active download under a new token |
| HeadlessEngineObject.HeadlessEngine.AcceptDownload | crates/evreos-engine-headless/src/lib.rs:1318-1366 | A token known, not rejected and not accepted takes the id and destination and plays its script; any other changes nothing |
| HeadlessEngineObject.HeadlessEngine.RejectDownload | crates/evreos-engine-headless/src/lib.rs:1368-1377 | The token is marked rejected and its undrained request taken back |
| HeadlessEngineObject.HeadlessEngine.CancelDownload | crates/evreos-engine-headless/src/lib.rs:1379-1399 | Downloads under the id are marked cancelled, undrained finishes taken back, and a cancellation emitted even for an unknown id |
| HeadlessEngineObject.HeadlessEngine.PollDownloadEvent | crates/evreos-engine-headless/src/lib.rs:1401-1404 | The oldest waiting download event, or none |
| HeadlessEngineObject.HeadlessEngine.PollEngineEvent | crates/evreos-engine-headless/src/lib.rs:1411-1419 | A navigation observation if one waits, else a download event |
| EngineOutcomes.UnscriptedFails | crates/evreos-engine-headless/src/lib.rs:1040-1046 | An address the engine was told nothing of is announced and fails as unresolvable, at the epoch it was in, and the page stays |
| EngineOutcomes.PageLoads | crates/evreos-engine-headless/src/lib.rs:1022-1034 | An address with a page, scripted or built in, is announced, committed, titled and loaded at the next epoch, and the surface shows that address under that title |
| EngineOutcomes.ScriptedFailureFails | crates/evreos-engine-headless/src/lib.rs:1035-1037 | An address scripted to fail is announced and fails with that error, and the page stays |
| EngineOutcomes.OfferIsOnlyAnnounced | crates/evreos-engine-headless/src/lib.rs:1014-1019 | An address that only offers a download is announced, nothing more is said of the navigation, and the page stays |
| EngineOutcomes.NavigationLeaves | crates/evreos-engine-headless/src/lib.rs:932-1016 | What any navigation not refused leaves besides: the load recorded, the visit in the surface's data and, for a persistent one, in the engine's store, its offer triggered, and nothing else touched |
| EngineOutcomes.ClosedRefuses | crates/evreos-engine-headless/src/lib.rs:955-958 | A closed surface refuses a navigation: the load is recorded and an id taken, and nothing else |
| EngineCalls.SequenceIsTold | crates/evreos-engine-headless/src/lib.rs:1038-1040 | A scripted sequence tells its steps one for one, in order, after the announcement |
| EngineCalls.ActivatingActivates | crates/evreos-engine-headless/src/lib.rs:815-838 | Activating an open surface makes it the active one and the one before it inactive; no other surface's state changes, and a closed or unknown one changes nothing |
| EngineCalls.SuspendingSuspends | crates/evreos-engine-headless/src/lib.rs:841-851 | Suspending an open surface changes its state alone, and leaves none active if it was |
| EngineCalls.ResumingUndoesSuspending | crates/evreos-engine-headless/src/lib.rs:854-860 | A surface suspended and then resumed is the active one; resuming any not suspended changes nothing |
| EngineCalls.ClosingEmpties | crates/evreos-engine-headless/src/lib.rs:863-880 | Closing empties one surface and leaves the rest; a private one's data is gone, a normal one's joins what the engine keeps of it |
| EngineCalls.CreatingAdds | crates/evreos-engine-headless/src/lib.rs:748-780 | A new surface is inactive, at the first epoch, with nothing shown, loaded or kept; no other changes |
| EngineCalls.SameDocumentMoves | crates/evreos-engine-headless/src/lib.rs:1129-1154 | One event at the next epoch; the title and the navigation shown stay, the address is shown and among the loads, and no other surface changes |
| EngineCalls.HostingShows | crates/evreos-engine-headless/src/lib.rs:1161-1198 | Three events at the next epoch, the identity shown under no title and among the loads, and no other surface changes |
| Downloads.PolledThenQueuedIsTheLogLessRetractions | crates/evreos-engine-headless/src/lib.rs:1281-1419 | Over every run, what was polled and then what waits is every event emitted, in order, less those rejections and cancellations took back |
| Downloads.RetractionsAreExact | crates/evreos-engine-headless/src/lib.rs:1368-1399 | A call takes back an event exactly when it is an undrained request for the token rejected, or an undrained finish of the id cancelled |
| Downloads.AcceptedAtMostOnce | crates/evreos-engine/src/lib.rs:842-854 | Whatever follows an acceptance, its id and destination stand and a second acceptance changes nothing |
| Downloads.RejectedTokenIsSilent | crates/evreos-engine/src/lib.rs:842-854 | A token rejected before acceptance is never accepted and its request is never polled, in every later run |
| Downloads.CancelledNeverFinishes | crates/evreos-engine-headless/src/lib.rs:1379-1399 | After a cancellation a finish of the id is queued again if and only if a later acceptance is given the id and finishes; without one no poll yields it |
| Downloads.CancelledDownloadNeverFinishes | crates/evreos-engine-headless/src/lib.rs:1318-1399 | Where the shell gives each acceptance an id of its own, no poll after cancelling an accepted download yields its finish |
| Downloads.CancelledBeforeAcceptanceStillFinishes | crates/evreos-engine-headless/src/lib.rs:1379-1399 | A concrete run: an id cancelled before it is given to an acceptance does finish |
| Downloads.FinishedNamesItsDestination | crates/evreos-engine-headless/src/lib.rs:1318-1366 | Every finish polled or waiting names the destination its download was accepted with, the only one its id was given where ids are not shared |
| Downloads.FreshIdsStayUnshared | crates/evreos-engine/src/lib.rs:842-854 | Ids given fresh stay one to a token |
| Downloads.QueuedOnlyIfEmitted | crates/evreos-engine-headless/src/lib.rs:1318-1399 | An event of a kind is ever waiting again exactly when a call emits one |
| Downloads.RunKeepsInvariant | crates/evreos-engine-headless/src/lib.rs:1281-1419 | Queue and log agree, and every token's record is consistent, after every run |
| DownloadTransfers.AcceptingTransfers | crates/evreos-engine-headless/src/lib.rs:1318-1366 | Accepting a waiting download records id and destination and queues its whole transfer: one event for each scripted step, or the bytes announced, 1024 where none were, and a finish; nothing else changes |
| DownloadTransfers.OthersTransferNothing | crates/evreos-engine-headless/src/lib.rs:1319-1323 | Accepting any other token changes nothing |
| DownloadTransfers.TriggeringAnnounces | crates/evreos-engine-headless/src/lib.rs:1290-1316 | A triggered download waits with the size and steps announced, and its request is last in the queue |
| DownloadTransfers.RejectingAndCancellingMark | crates/evreos-engine-headless/src/lib.rs:1368-1399 | A rejection marks its token alone, a cancellation the downloads accepted under its id alone |
| Registration.EveryPlanIsWellFormed | crates/evreos-platform/src/default_browser.rs:175-249 | Every registration that is checked and accepted writes its pointer last, and all its values to distinct slots of its own keys |
| Registration.PlanRootsDisjoint | crates/evreos-platform/src/default_browser.rs:175-249 | No key a registration owns is under another, nor under the shared list of applications |
| RegistrationAssociations.RegistrationLeadsToBrowser | crates/evreos-platform/src/default_browser.rs:200-242 | Once registered, whatever the store was, the list of applications leads to capabilities whose every file and scheme association names a class that runs the executable with the address, with its name and icon, and whose start-menu entry runs it |
| RegistrationAssociations.RefusedIff | crates/evreos-platform/src/default_browser.rs:174-199 | An application is refused exactly if one of five things is wrong with it, and for the first of them |
| RegistrationAssociations.KeyIsItsLettersAndDigits | crates/evreos-platform/src/default_browser.rs:179-184 | The key is the name's ASCII letters and digits, in order: keys of joined names are joined, and any other character goes |
| RegistrationStates.RegisteredHasOnePointer | crates/evreos-platform/src/default_browser.rs:268-294 | A successful registration leaves exactly one pointer at its capabilities, the one under the product's name, with every other value stored |
| RegistrationStates.PartlyListsOnlyComplete | crates/evreos-platform/src/default_browser.rs:238-240 | At every point of a first registration's writes a pointer is there only once all other values are, and before the last write none is |
| RegistrationStates.TrimmingListsOnlyComplete | crates/evreos-platform/src/default_browser.rs:321-340 | Removing pointers never makes a pointer to capabilities that are not complete |
| RegistrationStates.WrittenHasOnePointer | crates/evreos-platform/src/default_browser.rs:238-240 | Where no pointer stood, the writes leave the one under the product's name and no other |
| RegistrationStates.KeysRemovedUnderAPointerDangle | crates/evreos-platform/src/default_browser.rs:285-292 | The one run that breaks the order: with every value written and the owned keys then removed under the pointer, capabilities are listed that are not there |
| RegistrationStates.RegisteringLeavesOthers | crates/evreos-platform/src/default_browser.rs:268-294 | Registering changes no value outside the owned keys but pointers at these capabilities and values under this name |
| RegistrationStates.UnregisteredIsBare | crates/evreos-platform/src/default_browser.rs:300-319 | Unregistering leaves no owned key, no owned value and no pointer, and everything else as it was |
| RegistrationStates.UnregisterUndoesRegister | crates/evreos-platform/src/default_browser.rs:268-319 | Register and then unregister is the first store less exactly the owned values, the pointers and the value under this name |
| Registry.Hive.SetString | crates/evreos-platform/src/default_browser.rs:119-120 | A write stores the value under its key and makes the key and those above it; one that fails leaves every value, and perhaps the keys made |
| Registry.Hive.RemoveKey | crates/evreos-platform/src/default_browser.rs:121-123 | A removal takes the key with everything below it, or fails and leaves everything outside the key and nothing new inside it |
| Registry.Hive.StringValues | crates/evreos-platform/src/default_browser.rs:124-126 | The values a key holds, each once with its first spelling, or an error |
| Registry.Hive.RemoveValue | crates/evreos-platform/src/default_browser.rs:127-129 | One value goes, or the call fails and changes nothing |
| Registry.Hive.KeyExists | crates/evreos-platform/src/default_browser.rs:117-118 | Whether a key is there, or an error |
| RegistrationRemoval.RemovePointers | crates/evreos-platform/src/default_browser.rs:321-340 | Whatever fails, every state passed has lost only removable pointers; success loses exactly those, a failure leaves one of them or had changed nothing, the first error is the one returned, and with nothing to remove there is one call |
| RegistrationRemoval.RemoveOwnedKeys | crates/evreos-platform/src/default_browser.rs:312-317 | Every owned key is tried; every state passed has lost only owned keys, and success loses all of them |
| RegistrationRemoval.Remove | crates/evreos-platform/src/default_browser.rs:304-319 | Whatever fails, others' values stay, nothing owned goes before the keys' turn, and from then on a pointer is there exactly if one was at first and a call before that turn failed |
| RegistrationRemoval.Unregister | crates/evreos-platform/src/default_browser.rs:300-319 | Succeeds exactly when no call fails, and then with the bare store; keeps in every state what a removal keeps; an application that cannot be registered is refused untouched |
| RegistrationUndo.RemoveNewKeys | crates/evreos-platform/src/default_browser.rs:287-291 | Each owned key that was not there is tried, by as many calls as there are; every state passed has lost only owned content, a call that does not fail takes a value of the registration, the keys are bare if nothing fails, and values under the others stay |
| RegistrationUndo.CleanUp | crates/evreos-platform/src/default_browser.rs:285-292 | Whatever fails, taking pointers keeps the order and so does taking keys once they are gone; if the pointers' removal fails where one stood, one stands in every later state and dangles with the first key taken; if nothing fails no pointer and no new key is left |
| RegistrationTransaction.WriteValues | crates/evreos-platform/src/default_browser.rs:276-279 | Every state passed is some number of the values written in order; a failure leaves exactly those before it |
| RegistrationTransaction.WriteAndTrim | crates/evreos-platform/src/default_browser.rs:276-284 | In every state of a first registration's writes and trim, whatever fails, a pointer is there only once all else is stored; a failure leaves exactly the values written before it, and, where no pointer stood, is the last call |
| RegistrationTransaction.Survey | crates/evreos-platform/src/default_browser.rs:270-273 | Which owned keys were there, nothing changed |
| RegistrationTransaction.RegisterPlan | crates/evreos-platform/src/default_browser.rs:268-294 | Success exactly when no call fails. Where no pointer stood: no state up to the undo's turn at the keys lists what is not all written, whatever fails; no state at all does if and only if not all was written, or no call of the undo's pointer removal failed, or nothing written is gone at the end; one key the undo takes without error breaks it. A failed first registration whose undo succeeds leaves no pointer and no key it created; what was there under an owned key is as the writes left it; a later one keeps what it wrote |
| RegistrationTransaction.Register | crates/evreos-platform/src/default_browser.rs:268-294 | The same for an application, with invalid ones refused before anything is touched and the first error returned |
| RegistrationTransaction.ReachedReplacesWhatWasWritten | crates/evreos-platform/src/default_browser.rs:256-267 | Of a failed registration left in place, and of keys that were there before: the values written before the failure replace their earlier copies and the rest keep theirs |
| RegistrationTransaction.RegisterThenUnregister | crates/evreos-platform/src/default_browser.rs:268-319 | On the registry itself: after both succeed the values are the first ones less this registration's own |
| EgressCheck.SecondEgressPaths | scripts/checks/check_egress_chokepoint.py:217-307 | The check's loops with queue, parent map and problem list compute the verdict, whose problems the rows of `EgressVerdict` state exactly |
| EgressCheck.WalkMember | scripts/checks/check_egress_chokepoint.py:263-295 | One member's breadth-first walk: whom it meets and the chains it reports |
| EgressCheck.ReadChain | scripts/checks/check_egress_chokepoint.py:274-279 | The chain read back through the parent map, start first |
| EgressPaths.WalkMeetsExactlyTheReachable | scripts/checks/check_egress_chokepoint.py:263-295 | The walk meets a package if and only if some path reaches it with no exempt package inside the path |
| EgressPaths.ReportedChainsAreShortestPaths | scripts/checks/check_egress_chokepoint.py:273-295 | Every reported chain is such a path from the member to a denied package other than it, and no path to that package is shorter |
| EgressPaths.DeniedIsReportedOnceIffReachable | scripts/checks/check_egress_chokepoint.py:263-295 | A denied package other than the member is reported if and only if some path reaches it, and then once |
| EgressPaths.ChokepointEdgesChangeNothing | scripts/checks/check_egress_chokepoint.py:267-268 | Changing only what the chokepoint itself depends on changes no report |
| EgressPaths.ChokepointEdgesDecideOnlyWhetherThereIsAVerdict | scripts/checks/check_egress_chokepoint.py:246-252 | The exact exception: such a change changes the verdict only between no edge anywhere and some |
| EgressPaths.DeclaredDeniedNamesAreReported | scripts/checks/check_egress_chokepoint.py:296-306 | Every denied name a member declares is reported, as reached or as declared, unless the member itself bears that name |
| EgressPaths.OnlyDeclaredIsReported | scripts/checks/check_egress_chokepoint.py:296-306 | A declared report is of a denied name the member declares and its walk did not meet |
| EgressVerdict.ReportedIffReached | scripts/checks/check_egress_chokepoint.py:259-295 | The verdict reports a denied package for a member other than it if and only if the member is not the chokepoint and some way of dependencies that leaves no chokepoint leads to it |
| EgressVerdict.ReportedChainsAreEgress | scripts/checks/check_egress_chokepoint.py:273-295 | Every chain in the verdict is such a way from a member that is not the chokepoint to a denied package, and no other is shorter |
| EgressVerdict.DeclaredIffUnmet | scripts/checks/check_egress_chokepoint.py:296-306 | The verdict reports a declared name exactly if its member is not the chokepoint, the name is denied, and nothing the member reaches bears it |
| EgressVerdict.VerdictIff | scripts/checks/check_egress_chokepoint.py:232-252 | There is a verdict exactly if every member is a package and some package depends on another, or there is no member |
| EgressVerdict.NothingIsReportedTwice | scripts/checks/check_egress_chokepoint.py:255-306 | No problem is reported twice where neither members nor a member's declared names repeat |
| RustLex.StripNonCode | scripts/checks/rustlex.py:28-106 | The one loop with its inner loops computes the blanking whose laws follow |
| RustLexLaws.StrippingKeepsOffsets | scripts/checks/rustlex.py:28-106 | Length and every newline stay in place, code characters stay, comments are blanked, literals are blanked or kept by the mode |
| RustLexLaws.StripAt | scripts/checks/rustlex.py:28-106 | Each character is kept or blanked by the kind of the region that holds it: the regions partition the source |
| RustLexLaws.BlockCommentEndsAtItsBalancedClose | scripts/checks/rustlex.py:76-86 | A block comment ends just after the close that balances its opening, for any nesting, or at the end of the source if none does, and in no other place |
| RustLexLaws.StrippingTwiceIsStrippingOnce | scripts/checks/rustlex.py:28-106 | Blanking in one mode and then in another is blanking once, keeping literals only if both modes do: idempotent in both modes, and comments first then everything is everything at once |
| RustLex.NextRegion | scripts/checks/rustlex.py:70-105 | One turn of the loop finds the region that begins at a position |
| RustLexForms.RegionsAreTheForms | scripts/checks/rustlex.py:28-106 | The region at any place is exactly the first of these forms to begin there: a line comment to its newline, a balanced block comment, a character literal, a raw string, a plain string, else one character of code |
| RustLexForms.PlainCloseEnds | scripts/checks/rustlex.py:97-104 | A plain string's text is characters that are neither quote nor backslash, and backslash pairs; it ends at the first quote after such text, or with the source |
| RustLexForms.RawCloseEnds | scripts/checks/rustlex.py:88-96 | A raw string ends at the first quote with as many hashes as opened it, or with the source |
| RustLexForms.CharLiteralIs | scripts/checks/rustlex.py:20-24 | A character literal is one character that is neither quote nor backslash, or a backslash and one on the same line, between single quotes |
| Address.ResolveDots | crates/evreos-shell/src/import.rs:920-939 | The loop over segments with its stack computes the resolved path |
| AddressLaws.ResolvedHasNoDotSegment | crates/evreos-shell/src/import.rs:916-939 | No segment after the first separator of a resolved path is a dot segment, percent-encoded spellings included |
| AddressLaws.ResolvingTwiceIsResolvingOnce | crates/evreos-shell/src/import.rs:916-939 | Resolving is idempotent |
| AddressLaws.DotDotCancelsOrdinarySegment | crates/evreos-shell/src/import.rs:916-939 | An ordinary segment and the `..` after it cancel exactly when the path has a separator, or a query or fragment cuts it |
| AddressLaws.OpensOnAUserIsNamingOne | crates/evreos-shell/src/import.rs:941-950 | The test is true exactly of a path with two leading separators and an `@` in the segment after them |
| AddressLaws.CleanedNamesNoUser | crates/evreos-shell/src/import.rs:836-914 | No cleaned address has a user in its authority; a `file:` one has none after two separators either, as written or resolved |
| AddressLaws.CleanedKeepsHostAndPath | crates/evreos-shell/src/import.rs:853-906 | What is cut is exactly the user: scheme in lower case, then the authority opening, host and path as they are written |
| AddressLaws.CleaningTwiceIsCleaningOnce | crates/evreos-shell/src/import.rs:853-906 | Cleaning is idempotent |
| AddressRules.CleanedIff | crates/evreos-shell/src/import.rs:853-906 | An address with an authority is cleaned to its scheme in lower case, host and path if and only if it is visible text, its scheme is one of three, it has a host where it needs one, and a file path names no user; else it is dropped |
| AddressRules.CleanedPathIff | crates/evreos-shell/src/import.rs:870-882 | One without an authority is kept if and only if it is a `file:` path from a slash that names no user |
| AddressRules.NoSchemeIsDropped | crates/evreos-shell/src/import.rs:860-860 | An address with no colon is dropped |
| AddressRules.EveryAddressIsOne | crates/evreos-shell/src/import.rs:860-892 | Every address with a scheme is one of these two |
| AddressRules.TrimIs | crates/evreos-shell/src/import.rs:854-856 | What is cleaned is the address between the controls and spaces at its ends |
| AddressRules.ResolvedIs | crates/evreos-shell/src/import.rs:916-939 | A path's segments, whichever separators part them, up to a query or fragment, are resolved and written with `/` |
| AddressRules.ResolvingRules | crates/evreos-shell/src/import.rs:928-937 | Wherever they stand, a dot segment drops, two dots drop the ordinary segment before them, or only themselves where none is, and ordinary segments stand |
| AddressRules.DotSpellings | crates/evreos-shell/src/import.rs:930-932 | Three spellings are a dot segment and nine two dots, percent-encoded in either case included, and no other |
| BookmarkLaws.WrittenReads | crates/evreos-shell/src/import.rs:801-830 | A forest written under a folder reads back after what the folder held: the same folders and the same bookmarks in order, in consecutive places, at every level |
| BookmarkLaws.WriteGrows | crates/evreos-shell/src/import.rs:801-830 | Writing only adds rows, under the folder or under new ones, and as many bookmarks as the forest has |
| BookmarkOrder.OrderSurvivesIffUnmixed | crates/evreos-shell/src/store/bookmarks.rs:507-527 | In a store holding a forest, every forest the folder also reads as is in the same order if and only if no level mixes folders and bookmarks |
| ImportWrite.ImportedOrderSurvivesIffUnmixed | crates/evreos-shell/src/import.rs:737-755 | The order of an imported forest survives in its folder, whichever way that is read, exactly where nothing below a root mixes folders and bookmarks |
| BookmarkOrder.ReadsAlikeIff | crates/evreos-shell/src/store/bookmarks.rs:507-527 | A folder that reads as one forest reads as another exactly when both have the same folders in order and the same bookmarks in order at every level |
| BookmarkOrder.InterleavingIsLost | crates/evreos-shell/src/store/bookmarks.rs:507-527 | A bookmark before a folder and the folder before the bookmark read back alike |
| ImportStores.BookmarkStore.CreateFolder | crates/evreos-shell/src/store/bookmarks.rs:529-556 | A folder at the end of its parent's, under the next id; an unknown parent changes nothing, and outside a batch a save that fails is an error with the row kept |
| ImportStores.BookmarkStore.CreateBookmark | crates/evreos-shell/src/store/bookmarks.rs:574-610 | A bookmark at the end of its folder's; an unknown folder changes nothing, and outside a batch a save that fails is an error with the row kept |
| ImportStores.BookmarkStore.Subtree | crates/evreos-shell/src/store/bookmarks.rs:751-768 | The rounds that gather a folder's descendants find the least set closed under children |
| ImportStores.BookmarkStore.DeleteFolder | crates/evreos-shell/src/store/bookmarks.rs:739-782 | A folder goes with everything below it and nothing else, and the rows gone are counted; the root and unknown folders are refused; outside a batch a save that fails is an error with the rows gone |
| ImportStores.RemovingTheNewRestoresTheOld | crates/evreos-shell/src/import.rs:778-790 | Deleting a newly grown top folder leaves exactly the rows there were before it |
| ImportStores.HistoryStore.RecordBatch | crates/evreos-shell/src/store/history.rs:313-345 | All of a batch is appended under consecutive ids, or none of it |
| ImportWrite.WriteImported | crates/evreos-shell/src/import.rs:722-799 | A refusal leaves both stores' rows as before, but for a failed rollback, which is reported and leaves the bookmarks; success leaves both halves written with the counts of rows added; a missing name is found before any write |
| ImportWrite.WriteBookmarks | crates/evreos-shell/src/import.rs:743-754 | The whole folder for the import is written and saved as one batch, or the store is as it was |
| ImportWrite.WriteNodesInto | crates/evreos-shell/src/import.rs:801-830 | The recursive copy writes the forest as the specification does |
| ImportWrite.ImportedReadsBack | crates/evreos-shell/src/import.rs:737-755 | The new top folder reads back as one folder for each root with the root's forest, the old rows are still first, and the bookmarks added are the count of those read |
| ImportWrite.RootsAreNamed | crates/evreos-shell/src/import.rs:735-742 | Each root's folder goes by what the catalogue says of its kind |
| ImportWrite.RecordUnseen | crates/evreos-shell/src/import.rs:757-775 | The history's address and millisecond pairs become exactly the old ones and those read; each new row is new and once, in order |
| ImportWrite.UnseenIsNew | crates/evreos-shell/src/import.rs:763-773 | The filter keeps each visit not seen, once, and loses no pair |
| ImportWrite.MillisAre | crates/evreos-shell/src/import.rs:832-836 | Visits are told apart by the millisecond their time falls in; one before the epoch counts as the epoch |
| ImportWrite.ImportingAgainAddsNoHistory | crates/evreos-shell/src/import.rs:711-713 | Importing the same data again adds no history row |
| ImportWrite.RootNodesCount | crates/evreos-shell/src/import.rs:514-525 | The count of bookmarks is that of the forest written |
| ImportWrite.RemovalRestores | crates/evreos-shell/src/import.rs:778-790 | Taking the imported folder out again leaves the rows there were |
| LogicalLines.LogicalLines | scripts/checks/check_engine_prohibition.py:851-936 | The four passes in order compute the logical lines whose laws follow |
| LogicalLines.FoldBackslashes | scripts/checks/check_engine_prohibition.py:939-955 | The loop with its pending line computes the fold |
| LogicalLines.FoldBlocks | scripts/checks/check_engine_prohibition.py:900-935 | The loop over block scalars computes the fold and the set of script lines |
| LogicalLines.FoldContinuations | scripts/checks/check_engine_prohibition.py:1081-1124 | The loop over continuations computes the fold, whose lines `LogicalLinesRules.ContinuationsAre` states |
| LogicalLines.FoldFlow | scripts/checks/check_engine_prohibition.py:1131-1147 | The loop that joins a collection left open computes the fold |
| LogicalLines.FlowScan | scripts/checks/check_engine_prohibition.py:958-1073 | The scan loop: its depth is always its stack's height, and it returns the pairs and the depth left open |
| LogicalLines.StepKeepsSound | scripts/checks/check_engine_prohibition.py:996-1064 | One turn keeps depth equal to stack height, an element to read just where something is open, and every pair a real one |
| LogicalLinesLaws.LogicalLinesKeepTheText | scripts/checks/check_engine_prohibition.py:851-936 | With spaces and backslashes deleted the output is the input; the output's numbers are a subsequence of the input's, increasing if those are |
| LogicalLinesLaws.LogicalLinesAreBalanced | scripts/checks/check_engine_prohibition.py:1131-1147 | Every logical line of a workflow but possibly the last closes each collection it opens |
| LogicalLinesLaws.PlainLinesAreWhole | scripts/checks/check_engine_prohibition.py:939-955 | Outside YAML every line but possibly the last is one no backslash continues |
| LogicalLinesLaws.ScriptLinesStand | scripts/checks/check_engine_prohibition.py:1110-1124 | A script body's line is never folded into a value: its number stays among the output's |
| LogicalLinesLaws.PairsAreInTheText | scripts/checks/check_engine_prohibition.py:958-1073 | Every pair reported stands in the text between a bracket or comma and a bracket, comma or the end, split at a colon and a space |
| LogicalLinesLaws.FoldedAreClosed | scripts/checks/check_engine_prohibition.py:939-955 | No folded line but the last is one that the fold keeps open |
| LogicalLinesLaws.FoldKeeps | scripts/checks/check_engine_prohibition.py:939-955 | Folding keeps the text and the order for any rule that keeps the text |
| LogicalLinesRules.ContinuationsAre | scripts/checks/check_engine_prohibition.py:1081-1124 | A logical line opens at each line that is not blank and is a script's, a key, an item, or no deeper than the line that opened the last; its text is that line with every other one's after it up to the next |
| LogicalLinesRules.LinesPutOutStandApart | scripts/checks/check_engine_prohibition.py:1087-1100 | Each line put out but the first is a script's, a key, an item, or no deeper than the one before it |
| LogicalLinesRules.JoinedLinesAreDeeper | scripts/checks/check_engine_prohibition.py:1087-1100 | A line that is not blank and whose number is not put out was none of script, key and item, and deeper than one that is |
| LogicalLinesFolds.FoldIs | scripts/checks/check_engine_prohibition.py:939-955 | A fold by what is held open: a logical line opens at the first line and wherever the last is whole, and gathers every line that continues it |
| LogicalLinesFolds.BackslashHolds | scripts/checks/check_engine_prohibition.py:944-953 | A shell line is held open by a backslash with only spaces after it, which it loses with the spaces before it |
| LogicalLinesFolds.NothingElseHolds | scripts/checks/check_engine_prohibition.py:944-953 | Nothing else holds a shell line open |
| LogicalLinesFolds.BlockFolds | scripts/checks/check_engine_prohibition.py:900-935 | A block's header and body, the lines blank or deeper up to the first that is neither, become one line of its words, or, for literal shell, the header and the body folded by itself, whose lines are the script's |
| LogicalLinesFolds.TwoLinesAreRead | scripts/checks/check_engine_prohibition.py:851-936 | Through all four passes: a value on the line below its key, or the rest of a collection left open, is read as one line with it |
| FlowTrees.FlowIsRead | scripts/checks/check_engine_prohibition.py:958-1073 | Of a flow collection written where a value may begin, nested and quoted to any depth, the scan finds exactly its pairs, inner ones first, and closes it |
| FlowTrees.OpenFlowIsRead | scripts/checks/check_engine_prohibition.py:1065-1072 | One left open leaves depth one, and the pair it was in the middle of is found with the rest |
| FlowTrees.PlainValueOpensNothing | scripts/checks/check_engine_prohibition.py:1044-1064 | Where a plain value has begun no bracket opens a collection |
| FlowTrees.KeysAreBare | scripts/checks/check_engine_prohibition.py:1073-1073 | A key is put out without the spaces around it and the quotes within those |
| Wakes.WorstFiringsIsTheWorst | scripts/check-budgets.py:532-547 | No closed 3600-second window holds more firings of a period than its floor quotient and one, and a window that opens on a firing holds as many |
| Wakes.GateDecidesSafety | scripts/check-budgets.py:218-226 | Wakes safe in every window at every phase pass; and where no count is clamped those that pass are safe |
| Wakes.PassingIsSafeIffNothingIsClamped | scripts/check-budgets.py:532-547 | For given periods, passing means being safe whatever the bounds if and only if no period's count is clamped |
| Wakes.ClampHidesCost | scripts/check-budgets.py:537-546 | A wake of decimals a budget file can state passes and takes over three times the cap in every window |
| Wakes.SafeIffWorstIsWithinCap | scripts/check-budgets.py:218-226 | Safety in every window and phase is the worst total within the cap |
| Wakes.WorstComesAbout | scripts/check-budgets.py:218-226 | The worst total comes about in every window, when all wakes fire as it opens |
| Wakes.GateAgainstWorst | scripts/check-budgets.py:532-547 | The gate's total is at most the worst, and equal exactly when nothing is clamped |
| Wakes.CheckWakes | scripts/check-budgets.py:792-842 | The loop reports nothing if and only if every record is well formed, no name repeats, each bound is within its cap and the total within the window's |
| BudgetGates.FaultlessIsSound | scripts/check-budgets.py:635-781 | The checks on one entry find nothing if and only if the entry is what the specification asks |
| BudgetGates.CheckEntries | scripts/check-budgets.py:619-790 | The gate blocks nothing if and only if each entry of the closed list is declared once, soundly, and nothing else is |
| BudgetGates.CheckRunners | scripts/check-budgets.py:568-610 | Nothing untagged is blocked if and only if both tiers are declared and no refresh is negative; tagged failures are exactly those of runners not pinned |
| BudgetGates.CheckBudgetFile | scripts/check-budgets.py:566-842 | The gate is silent on a sound file and only then, apart from unpinned runners, which alone carry the tag |
| BudgetGates.Gate.DeferUnpinned | scripts/check-budgets.py:845-859 | Exactly the tagged failures move to the advice, in order; no failure is lost |
| BudgetGates.Gate.Block | scripts/check-budgets.py:328-339 | A failure and its tag are recorded together |
| BudgetGates.EntriesAreSoundIff | scripts/check-budgets.py:609-783 | Checking entries one by one, each against those before it, is the same as the statement over all of them at once |
| BudgetVerdict.RunGates | scripts/check-budgets.py:956-1124 | The loop's three lists are what each entry's gates say, in order |
| BudgetVerdict.CompareEntry | scripts/check-budgets.py:982-1122 | One entry's turn: unmeasured with its reason, above its figure as failure or advice, worse than its baseline |
| BudgetVerdict.Verdict | scripts/check-budgets.py:1183-1283 | Passing is exactly a sound file, pinned or deferred runners, silent absolute and regression gates, and nothing unmeasured that blocks unless deferred |
| BudgetVerdict.PassingMeansWithinBudget | scripts/check-budgets.py:956-1283 | What a pass means for each of the stated budgets under either flag: declared once; at most its figure, exempt by an exemption naming that figure, or waiting for its machine; at most 1.05 times any positive baseline even then; unmeasured only if deferred |
| BudgetVerdict.PassingUndeferred | scripts/check-budgets.py:956-1283 | With no flag: each stated budget is declared once, was measured, is at most its figure unless exempt, and at most 1.05 times any positive baseline |
| BudgetVerdict.PassingWakesAreSafe | scripts/check-budgets.py:792-842 | The wakes of a passing file take no more than the caps in any window, where no count is clamped |
| BudgetVerdict.ExemptionsDoNotInterfere | scripts/check-budgets.py:500-529 | Giving one entry another exemption, or none, changes no regression verdict, nothing unmeasured, and no other entry's absolute failure or advice |
| BudgetExactness.PassesIff | scripts/check-budgets.py:956-1283 | A run passes if and only if its file is sound, runners are pinned or may wait, and each stated budget is declared once and stands: measured at most at its figure, or exempt, or waiting, and within its tolerance of a measured baseline; or unmeasured and let off or waiting |
| BudgetExactness.AbsoluteReports | scripts/check-budgets.py:1077-1105 | The absolute gate reports exactly the compared entries measured above their figure, each with its reason, as advice exactly if exempt or waiting for a machine |
| BudgetExactness.RegressionReports | scripts/check-budgets.py:1107-1122 | The regression gate reports exactly the compared entries above a measured baseline by more than their tolerance |
| BudgetExactness.UnmeasuredReports | scripts/check-budgets.py:1001-1056 | Every entry reported unmeasured is, for the reason given, and blocks unless its machine is yet to be pinned |
| BudgetExactness.UnmeasuredIsReported | scripts/check-budgets.py:1001-1056 | And every compared entry with no measurement is reported so |
| BudgetExactness.StatedBudgets | scripts/check-budgets.py:178-190 | The closed list is nine budgets on each of two platforms |
| BudgetExactness.CitationsAre | scripts/check-budgets.py:195-195 | A decision is cited as its directory and four digits, after which one line break may stand |
| Members.WorkspaceMembers | scripts/checks/check_crate_policy.py:301-378 | The result has no repeats and is the least set holding every eligible directory listed or followed from a member; the problems are exactly the unreadable exclusions and entries, patterns that match nothing, members with a dependency that cannot be read, and directories listed or followed that have no manifest |
| Members.Walk.Add | scripts/checks/check_crate_policy.py:319-355 | The recursion over a cyclic graph terminates; what it adds is what the directory leads to, complete and needed |
| Members.TheMembersAreUnique | scripts/checks/check_crate_policy.py:301-378 | There is only one such set |
| Members.ExploringAllIsTheMembers | scripts/checks/check_crate_policy.py:357-378 | A walk over everything listed yields that set and those reports |
| Members.FollowsIff | scripts/checks/check_crate_policy.py:336-355 | A member follows exactly what its own paths and the names it inherits from the workspace's table come to, under the root |
| Members.ListedIff | scripts/checks/check_crate_policy.py:357-378 | What is listed: the root's own package, each match of a pattern, and what each other path comes to |
| Messages.ParseMessage | crates/evreos-i18n/src/lib.rs:374-404 | The loop over characters computes the parse whose laws follow |
| Messages.ParsedPrintsBack | crates/evreos-i18n/src/lib.rs:374-404 | An accepted message prints back as it was, and its pieces are in normal form |
| Messages.PrintedParsesBack | crates/evreos-i18n/src/lib.rs:374-404 | Pieces in normal form parse back from what they print |
| Messages.AcceptedIffPrinted | crates/evreos-i18n/src/lib.rs:374-404 | The accepted messages are exactly those normal-form pieces print |
| Messages.Arguments | crates/evreos-i18n/src/lib.rs:320-335 | The loop lists the argument names |
| Messages.NamesAreTheArguments | crates/evreos-i18n/src/lib.rs:320-335 | A name is listed if and only if the message interpolates it |
| Messages.NamesAreInOrder | crates/evreos-i18n/src/lib.rs:313-335 | Names are listed once each, in order of first appearance |
| Messages.Resolve | crates/evreos-i18n/src/lib.rs:344-370 | The loop substitutes, or stops at the first argument not supplied |
| Messages.ResolvesIffAllSupplied | crates/evreos-i18n/src/lib.rs:337-370 | Resolution succeeds if and only if a value is supplied for every name listed; an error names one that is not |
| Messages.OnlyListedNamesMatter | crates/evreos-i18n/src/lib.rs:337-370 | Values under other names change nothing |
| Messages.FirstSuppliedWins | crates/evreos-i18n/src/lib.rs:355-360 | Of several values under one name the first is used |
| Messages.ResolvingIsSubstitution | crates/evreos-i18n/src/lib.rs:344-370 | The resolved text is the original text with each `{name}` replaced by its value |
| Catalogue.ParseCatalogue | crates/evreos-i18n/src/lib.rs:261-300 | Succeeds exactly when no line is faulty or repeats a key, with exactly the lines' entries; an error is that of the first such line |
| Catalogue.WrittenLineReadsBack | crates/evreos-i18n/src/lib.rs:261-300 | An entry written `key = message` reads back as it was |
| Keymap.Keymap.Bind | crates/evreos-shell/src/keymap.rs:1105-1115 | The shortcut goes to the end of the command's list and out of every other; the tables stay inverses without repeats |
| Keymap.Keymap.TryBind | crates/evreos-shell/src/keymap.rs:1118-1134 | A shortcut another command has is refused with that conflict and nothing changes; otherwise it is bound |
| Keymap.Keymap.Unbind | crates/evreos-shell/src/keymap.rs:1137-1143 | The shortcut leaves both tables and its command is returned |
| Keymap.Perform | crates/evreos-shell/src/keymap.rs:1105-1143 | After any sequence of operations the shortcut table is a plain last-write-wins map and the command table its exact inverse |
| Keymap.LastBindingWins | crates/evreos-shell/src/keymap.rs:1104-1105 | A binding stands until its shortcut is bound or unbound again, whatever is tried elsewhere |
| Shortcuts.ParseShortcut | crates/evreos-shell/src/keymap.rs:626-694 | The loop over modifiers and the key table compute the parse |
| Shortcuts.WrittenReadsBack | crates/evreos-shell/src/keymap.rs:715-730 | A shortcut's text parses back to it if and only if its key is not a plus, white space or an ASCII capital |
| Shortcuts.NamedKeysReadBack | crates/evreos-shell/src/keymap.rs:434-467 | Every named key's text reads back as that key |

## Left out

- Navigation, surface and download identifiers are unbounded; the source's are 64-bit. The epoch alone
  saturates as in the source.
- Engines made by a host, and the responses, policy and load log they share, are not modelled; an engine
  stands alone.
- Content blocking and its counts, surface kinds, identities, hosted bytes, application ids, messages and
  request gating carry no state the theorems need.
- File effects of downloads: payloads are carried but no file is written or removed.
- `ensure_active_surface` takes some open surface, whichever; the order of a hash map is not modelled.
- Download tokens are any not yet issued, the smallest allowed or a later one; the process-wide counter
  behind them is not modelled.
- EngineRuns.EveryNavigationObeysTheContract: asks that scripts follow the grammar, since the engine plays
  whatever it is given; `NavigationObeysIffItsScriptFollows` shows that it must.
- Downloads.RejectedTokenIsSilent: speaks of a token rejected before acceptance; rejecting an accepted one
  leaves its events, as in the code.
- RegistrationTransaction.Register: speaks of the order only where no pointer at these capabilities stood
  before; an older one, left under another name, points at whatever is written. Keys above the owned ones
  that a write made may remain, empty, as in the code.
- The registry folds names by an arbitrary character map beside ASCII lower case; the operating system's
  own table is a parameter.
- The Windows binding of the registry and opening the settings page are not part of this model.
- Egress messages are their member and chain, not their text; reading the denylist and running
  `cargo metadata` are inputs, as is the folding of crate names.
- The patterns that open character and string literals in Rust source are modelled as the scanner uses
  them; other users of the blanked source are not.
- Reading source browsers' profiles, and the job that drives an import, are not modelled; what was read is
  an input.
- ImportWrite.WriteImported: assumes that ids in the bookmark store are below its counters and its root
  folder is there, which opening a store establishes; catalogue names are given as a table.
- Bookmark positions are equal to the order of creation for the new folder; folders moved later are not
  modelled.
- The header, key and item patterns of the YAML folding are parameters, so its laws hold for any patterns.
- The walk over enclosing keys, the nightly rules and the dependency walk of the engine prohibition check
  are not modelled; they read the logical lines proved here.
- Budget entries are well typed with exact real numbers: shape errors, floating-point rounding and the
  bound on integers are not modelled, and the texts of messages are not.
- What is measured is an input; finding installers and the release job's refusal of exemptions are not
  modelled.
- The manifests, the patterns and the resolving of paths of a workspace are inputs of the member walk; a root
  manifest with no workspace table, which has no members, is not modelled.
- Languages, and the catalogues compiled in, are not modelled; a catalogue is its lines.
- The default key bindings, commands' names and window-system key conversion are not modelled.
- Of the repository's other checks, the network crate, updates and the chrome, nothing is modelled: they
  branch once or hold tables.
