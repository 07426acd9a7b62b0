# Verification of the NVMe multipath stack

A Dafny model of the repository's user-space multipath layer, its patched NVMe bdev module and
its NVMe-oF target, with proofs of the properties their protocols, state machines and codecs
rely on. `dafny verify dfyconfig.toml` checks everything.

Each component is one module (the ANA log page is four, pausing three):

| module | what it models |
|---|---|
| `Scatter` | scatter lists: the iov cursor, flattening, windows, write-at |
| `AnaPage`, `AnaTarget`, `AnaHost`, `AnaRoundTrip` | the ANA log page: its bytes, the target's printer, the host's parser, and both together |
| `DiscoveryRead` | the discovery log copy and zero-fill |
| `CtrlrLifecycle` | host controller: references, reset, delayed reconnect, destruction |
| `NsLifecycle` | namespaces, the bdevs they back, and the controller references they hold |
| `PathSelect`, `RetryList`, `FailoverPaths` | path choice and round robin, the retry list and its poller, the ordered failover list |
| `Pause`, `PauseLeaks`, `PauseRequests` | target requests: outstanding counters and subsystem pause; what leaks, and which pauses can complete; what becomes of single requests |
| `AsyncEvents`, `CcCsts` | asynchronous events; CC/CSTS writes, resets and shutdowns |
| `Abts`, `FcTeardown` | Fibre Channel: ABTS fan-out, hierarchical teardown |
| `DsmUnmap` | deallocation over several ranges with out-of-memory resubmission |
| `DiscoverySync` | keeping attached subsystems in step with a discovery log |
| `Sump` | the multipath layer on top: hash pick, wrapped callback, retry on another path |
| `Options`, `Collections` | a nullable pointer; lists and sets of numbers |

A protocol is a `State`, an `Event` type and a `Step` function; a run is any sequence of enabled
events, so every interleaving of the mutex-protected sections and asynchronous completions is
covered. An invariant is proved for every step and lifted to every run. Beside it a class holds
the source's own fields, and each method, written with the source's branches and loops, is
proved to change them exactly as `Step` says. What the code does not see (the block layer, the
transports, the pollers of other threads, the clock) enters as a parameter of an event.

Where a promised property does not hold of the code, the code is kept, the failing family is
exhibited, and the exact condition is proved:

* an asynchronous event request on an inactive queue pair, and any I/O with opcode 0x0c
  (Verify), keep their outstanding count for ever, so a pause that waits for it never completes
  (`PauseLeaks.MgmtLeaksIff`, `PauseLeaks.IoLeakIs`, `PauseLeaks.LeakBlocksPause`,
  `PauseLeaks.NsLeakBlocksPause`);
* pausing the whole subsystem while the first of two fused commands is held never completes
  (`PauseLeaks.HeldFirstBlocksPause`); which pauses can complete is `PauseLeaks.PauseCompletesIff`;
* a namespace addition that fails late leaves its ANA group's counter raised
  (`AnaTarget.CountsStayMatchedIff`);
* an ANA log page with 65536 groups or more loses groups to the 16-bit counter
  (`AnaRoundTrip.CompleteIffCounterFits`), and a page longer than two windows cannot be read
  in windows of that size (`AnaTarget.WindowsReadWholePageIff`);
* a rejected disconnect in the delayed-reconnect branch, and a reset admitted before the delay
  timer runs, let a controller be unregistered twice (`CtrlrLifecycle.UnregisteredIs`,
  `CtrlrLifecycle.TwiceIff`);
* a namespace depopulated during its path deletion is freed twice, and one whose id is reused
  too early is never freed (`NsLifecycle.FreedAtMostOnceIff`, `NsLifecycle.LeftBehindForever`);
* aborting queued I/Os shortens the retries of the objects' next use
  (`RetryList.NextUseHasAllRetriesIff`);
* enabling a controller during its reset is undone when the reset finishes, and a shutdown
  notified together with a disable or during a disconnect is dropped
  (`CcCsts.ReenableSurvivesIff`, `CcCsts.ShutdownHappensIff`);
* a discovery read from beyond the log answers with what follows it in memory
  (`DiscoveryRead.BeyondIsExpectedIff`);
* a deallocation whose resubmission fails hard with nothing in flight never completes
  (`DsmUnmap.LostIff`);
* a connection deleted before its hardware queue is assigned crashes the Fibre Channel target
  (`FcTeardown.CrashesIff`), and so does an I/O without blocks or paths the multipath layer
  (`Sump.SubmitSurvivesIff`);
* a failed discovery fetch blocks all further ones (`DiscoverySync.FailedFetchBlocks`), and a
  reconnection of the discovery controller during a fetch or an attach makes rounds collide,
  which can lose a page (`DiscoverySync.StaysApartIff`, `DiscoverySync.OverwriteIff`); when the
  assertion at reconnection holds is `DiscoverySync.AssertionHoldsIff`.

## Model

| member | source | states |
|---|---|---|
| `Scatter.CopyCtx.constructor` | nvmf/ctrlr.c:63-70 | a fresh cursor stands at the first byte of the flattened vectors |
| `Scatter.CopyCtx.CopyBuf` | nvmf/ctrlr.c:72-104 | copies as many bytes as fit; the flattened vectors change exactly there, the cursor moves on by that much, and the count is returned |
| `Scatter.CopyCtx.Round` | nvmf/ctrlr.c:82-101 | one round either moves to the next vector or copies a non-empty piece |
| `Scatter.WindowsConcatenate` | nvmf/ctrlr.c:2253-2353 | consecutive windows of a page concatenate to the larger window, also past its end |
| `AnaTarget.GetAnaLogPage` | nvmf/ctrlr.c:2253-2353 | for every offset, length, namespace layout and vector split with room for it, the vectors receive exactly the requested window of the page and no other byte changes |
| `AnaTarget.CountGroups` | nvmf/ctrlr.c:2273-2277 | the header counts exactly the reported groups |
| `AnaTarget.EmitChunk` | nvmf/ctrlr.c:2283-2294 | a chunk before the window is skipped, otherwise its part is written; the rest of the window is what remains |
| `AnaTarget.EmitGroup` | nvmf/ctrlr.c:2296-2345 | one descriptor with its NSIDs: what it writes plus what remains is the window that was to be written |
| `AnaTarget.EmitGroups` | nvmf/ctrlr.c:2296-2349 | the loop over all groups writes the whole window of the descriptor list |
| `AnaTarget.EmitMembers` | nvmf/ctrlr.c:2322-2345 | the loop over the namespaces writes the window of one NSID list |
| `AnaTarget.AddKeepsCounts` | nvmf/subsystem.c:1717-1726 | adding a namespace keeps every group counter equal to the number of its namespaces |
| `AnaTarget.CountersDrift` | nvmf/subsystem.c:1724-1770 | over any additions and removals each counter is its group's size plus the additions to it that failed after raising it |
| `AnaTarget.CountsStayMatchedIff` | nvmf/subsystem.c:1724-1770 | so counters in step stay in step if and only if no addition takes one of the late error exits |
| `AnaTarget.RemoveKeepsCounts` | nvmf/subsystem.c:1320-1331 | so does removing one, whose group counter is positive as the assertion says |
| `AnaTarget.GroupsExact` | nvmf/ctrlr.c:2296-2320 | with counters in step every reported descriptor counts its own NSIDs |
| `AnaTarget.WindowsReadWholePageIff` | nvmf/ctrlr.c:2578-2588 | a page read in equal windows is served completely if and only if it is no longer than two of them, because an offset beyond the length is refused |
| `AnaPage.PageRoundTrip` | nvmf/ctrlr.c:2279-2345 | decoding the bytes of a generated page, whatever follows them, yields its groups as far as the 16-bit counter can say |
| `AnaPage.DescRoundTrip` | nvme/bdev_nvme.c:3221-3254 | one descriptor with its NSIDs decodes to its group, and its computed size is its real one |
| `AnaPage.PageLayout` | nvmf/ctrlr.c:2271-2345 | byte for byte: the group count in bytes 8 and 9, each group's id, count and state in bytes 0-3, 4-7 and 16 of its 32-byte descriptor, its NSIDs right behind it in order, zeros elsewhere |
| `AnaHost.NvmeCtrlr.ParseAnaLogPage` | nvme/bdev_nvme.c:3221-3254 | stays inside a well-formed page and applies the callback to every descriptor in order until one stops it; -EINVAL without a page |
| `AnaHost.NvmeCtrlr.WalkDescriptors` | nvme/bdev_nvme.c:3233-3251 | the descriptor walk through the aligned copy equals the fold over the decoded groups |
| `AnaHost.NvmeCtrlr.CopyDesc` | nvme/bdev_nvme.c:3240-3243 | a descriptor decodes the same from the aligned copy as from the page |
| `AnaHost.NvmeCtrlr.SetAnaStates` | nvme/bdev_nvme.c:4123-4148 | sets exactly the known namespaces a descriptor lists |
| `AnaHost.NvmeCtrlr.SetAnaStateOf` | nvme/bdev_nvme.c:3300-3316 | sets its one namespace and stops the walk if the descriptor lists it, otherwise changes nothing |
| `AnaRoundTrip.HostSeesRankedGroups` | nvme/bdev_nvme.c:3221-3316 | for every subsystem and every stale buffer tail, parsing the printed page gives each known namespace its own group's id and the listener's state of that group (optimized without ANA reporting, inaccessible without a listener) exactly if the group is among those the 16-bit counter covers, touches no other namespace, and the early-exit parse agrees |
| `AnaRoundTrip.SingleAgreesWithFull` | nvme/bdev_nvme.c:3300-3316 | the early-exit parse agrees with the full parse on every page listing the namespace at most once |
| `AnaRoundTrip.CompleteIffCounterFits` | nvmf/ctrlr.c:2260-2282 | every active namespace is delivered if and only if fewer than 65536 groups are reported |
| `AnaRoundTrip.DecodePrinted` | nvmf/ctrlr.c:2253-2353 | the printed page lies within itself and decodes to the reported groups |
| `AnaRoundTrip.PageFitsHostSizes` | nvme/bdev_nvme.c:4104-4120 | the page never exceeds the size the host reads nor the buffer it allocated |
| `AnaRoundTrip.ReadPage` | nvmf/ctrlr.c:2253-2353 | one read into a plain buffer leaves the page followed by the old contents |
| `AnaRoundTrip.ReadAndParse` | nvme/bdev_nvme.c:4573-4626 | target print, host read and host parse together: every known namespace ends with its own group's id and with the listener's state of it, optimized without ANA reporting and inaccessible without a listener; no other namespace changes |
| `DiscoveryRead.GetDiscoveryLogPage` | nvmf/ctrlr_discovery.c:174-213 | for every 64-bit offset, length and vector split the flattened vectors hold what is read from the offset on, then zeros; how much that is follows the subtraction and the sum that wrap around |
| `DiscoveryRead.AnswerIsExpected` | nvmf/ctrlr_discovery.c:187-209 | for an offset not beyond the log that is the log window followed by zeros |
| `DiscoveryRead.BeyondIsExpectedIff` | nvmf/ctrlr_discovery.c:187-198 | an offset beyond the log is answered with zeros if and only if the memory read instead holds zeros |
| `DiscoveryRead.RoundGoes` | nvmf/ctrlr_discovery.c:188-201 | one round over a vector either takes all that is to be taken or fills the vector, also where the sum wraps around |
| `DiscoveryRead.CopyRound` | nvmf/ctrlr_discovery.c:188-201 | the loop body stores the next bytes at the start of its vector and moves offset and length on |
| `DiscoveryRead.ExpectedIsCopyIntoZeros` | nvmf/ctrlr_discovery.c:187-209 | that result equals zeroing everything and then doing the generic scatter copy |
| `DiscoveryRead.ZeroRest` | nvmf/ctrlr_discovery.c:199-207 | everything after the copied bytes becomes zero |
| `CtrlrLifecycle.UnregisteredExactlyOnce` | nvme/bdev_nvme.c:518-561 | over every interleaving, a controller is unregistered exactly once when destruction has begun and nothing blocks it, and never earlier |
| `CtrlrLifecycle.UnregisteredIs` | nvme/bdev_nvme.c:518-561 | over every run from creation, whatever the driver refuses and whichever resets are admitted, a controller is unregistered once when nothing blocks it any more, and once more for each reset completion that runs after that |
| `CtrlrLifecycle.StepKeepsInv` | nvme/bdev_nvme.c:1757-2001 | in every critical section and completion the unregistration count goes up exactly with the last blocker or by a late reset completion |
| `CtrlrLifecycle.SurplusIs` | nvme/bdev_nvme.c:1782-1864 | resets under way exceed what resetting announces by one more with each rejected delayed disconnect and with each timer that expires while a reset runs, and by one less only when a completion finds the flag clear |
| `CtrlrLifecycle.TwiceIff` | nvme/bdev_nvme.c:1934-2001 | a controller can still be unregistered twice, without any such event to come, if and only if a reset is under way that resetting does not announce |
| `CtrlrLifecycle.StepKeepsApart` | nvme/bdev_nvme.c:1995-2001 | with every delayed disconnect accepted and no reset admitted meanwhile, there is one reset, announced by the flag, or one delayed reconnect |
| `CtrlrLifecycle.BlockersCountDown` | nvme/bdev_nvme.c:518-533 | once destruction has begun, ref + resetting + updating + clearing falls by one with each completion and by nothing else |
| `CtrlrLifecycle.CompletionsReachUnregister` | nvme/bdev_nvme.c:544-561 | so it is unregistered by exactly the completion that makes their number reach the initial blockers |
| `CtrlrLifecycle.BlockedHasNextStep` | nvme/bdev_nvme.c:1934-2001 | a destructing controller with blockers left always has a completion or a reset step to come |
| `CtrlrLifecycle.LossTimeoutNeverFires` | nvme/bdev_nvme.c:2075-2104 | after the local patch zeroes the loss timeout, only an explicit delete destroys the controller |
| `CtrlrLifecycle.ResetLeadsTo` | nvme/bdev_nvme.c:1808-2001 | a reset completion adds a delayed reconnect if and only if the reset failed, a delay is configured, nothing lets the controller go and the loss timeout has not passed; it begins destruction only after a failed reset whose timeout passed |
| `CtrlrLifecycle.SuccessLeavesAlone` | nvme/bdev_nvme.c:1815-1832 | over every run without a failed reset no delayed reconnect is added and destruction begins with a delete only |
| `CtrlrLifecycle.ResultsAreTold` | nvme/bdev_nvme.c:2003-2104 | over every run the resets reported to have succeeded, with those about to be, are the reconnects that succeeded, and those reported to have failed are the failed reconnects and refused disconnects |
| `CtrlrLifecycle.ResetMovesOn` | nvme/bdev_nvme.c:1782-2104 | a reset disconnects and then reconnects, a delayed reconnect disconnects and then waits, each only if the driver lets it |
| `CtrlrLifecycle.SettingsKeep` | nvme/bdev_nvme.c:2075-2104 | over every run the loss timeout is zero from the first reconnect poll on and unchanged before |
| `CtrlrLifecycle.ReferencesBalance` | nvme/bdev_nvme.c:544-561 | over every run the references are those taken minus those dropped |
| `CtrlrLifecycle.ResetAdmittedIff` | nvme/bdev_nvme.c:2157-2186 | a reset is admitted if and only if the controller is not being destructed, resetting or waiting to reconnect; the answer says which |
| `CtrlrLifecycle.BackgroundWorkIff` | nvme/bdev_nvme.c:4195-4234 | an ANA read or a cache clearing starts if and only if none of its kind runs and the controller is not failed, resetting, delayed or being destructed, and only its own completion ends it |
| `CtrlrLifecycle.TimerReconnectsIff` | nvme/bdev_nvme.c:1838-1864 | the delay timer leads to a reconnect unless the controller is being destructed |
| `CtrlrLifecycle.ResetAfterRejectionUnregistersTwice` | nvme/bdev_nvme.c:1782-1803 | after a rejected delayed disconnect a newly admitted reset loses its flag to the second completion and lets the controller be unregistered twice |
| `CtrlrLifecycle.ResetDuringDelayUnregistersTwice` | nvme/bdev_nvme.c:1837-1878 | so does a reset admitted between the choice of a delayed reconnect and its timer |
| `CtrlrLifecycle.FailedReset` | nvme/bdev_nvme.c:1786-1792 | from a fresh controller a reset that cannot disconnect leads to a delayed reconnect |
| `CtrlrLifecycle.RejectedDisconnectUnregistersTwice` | nvme/bdev_nvme.c:1782-1803 | from there a concrete run in which a rejected delayed disconnect makes the controller unregister twice |
| `CtrlrLifecycle.NvmeCtrlr.ReleaseRef` | nvme/bdev_nvme.c:544-561 | drops one reference and unregisters if that was the last blocker |
| `CtrlrLifecycle.NvmeCtrlr.StartReset` | nvme/bdev_nvme.c:2157-2186 | admits a reset exactly if none is running, delayed or forbidden by destruction |
| `CtrlrLifecycle.NvmeCtrlr.FinishReset` | nvme/bdev_nvme.c:1934-2001 | clears resetting and changes the state as a reset completion of that result does (what that is in terms of the result: `ResetLeadsTo`) |
| `CtrlrLifecycle.NvmeCtrlr.PollReconnect` | nvme/bdev_nvme.c:2075-2104 | ends the reset with the poll's result, the loss timeout being zeroed on the way |
| `CtrlrLifecycle.NvmeCtrlr.Disconnect` | nvme/bdev_nvme.c:1782-1803 | hands the connection to the reset or the delayed reconnect, or completes the reset with failure if the driver refuses |
| `CtrlrLifecycle.NvmeCtrlr.ResetComplete` | nvme/bdev_nvme.c:2003-2011 | one more completion walks the channels, with its result |
| `CtrlrLifecycle.NvmeCtrlr.StartDelete` | nvme/bdev_nvme.c:4838-4868 | marks the controller for destruction once |
| `CtrlrLifecycle.NvmeCtrlr.StartDelayTimer` | nvme/bdev_nvme.c:1867-1878 | the delayed reconnect is pending from here on |
| `CtrlrLifecycle.NvmeCtrlr.DelayTimerExpired` | nvme/bdev_nvme.c:1838-1864 | starts the reconnect unless destruction has begun |
| `CtrlrLifecycle.NvmeCtrlr.ReadAnaLogPage` | nvme/bdev_nvme.c:4195-4234 | admits one read at a time of an available controller |
| `CtrlrLifecycle.NvmeCtrlr.ReadAnaLogPageDone` | nvme/bdev_nvme.c:4167-4192 | unregisters if it was the last blocker, otherwise goes on to clear the path caches |
| `CtrlrLifecycle.NvmeCtrlr.ClearIoPathCaches` | nvme/bdev_nvme.c:1427-1443 | starts at most one clearing of an available controller |
| `CtrlrLifecycle.NvmeCtrlr.ClearIoPathCachesDone` | nvme/bdev_nvme.c:1384-1401 | unregisters if it was the last blocker |
| `NsLifecycle.NamespacesFreed` | nvme/bdev_nvme.c:3925-3993 | over every run, without assumptions, a namespace that has left the tree and its bdev is freed once counting a pending path deletion, never if the destruct loop left it behind, and twice if it was depopulated during its path deletion; it gives back one reference each time and ref is exact |
| `NsLifecycle.FreedAtMostOnceIff` | nvme/bdev_nvme.c:3955-3993 | over every run a namespace is freed at most once, its pending path deletion counted, if and only if it was never depopulated while that was under way |
| `NsLifecycle.SecondDepopulateFreesTwice` | nvme/bdev_nvme.c:3955-3993 | a run from freshly created controllers in which a second depopulation frees a namespace twice |
| `NsLifecycle.LeftBehindForever` | nvme/bdev_nvme.c:1609-1625 | a namespace detached after it left the tree is freed at once, and otherwise never in any continuation, which happens if and only if its id is found in the tree |
| `NsLifecycle.ReusedIdLeavesBehind` | nvme/bdev_nvme.c:1609-1625 | a run from freshly created controllers in which populating the id again leaves the old namespace behind |
| `NsLifecycle.NamespacesFreedExactlyOnce` | nvme/bdev_nvme.c:3925-3993 | over every run without these two events each namespace is freed once, exactly when it has left the tree and its bdev, and ref is the creation reference plus queue pairs plus unreleased namespaces |
| `NsLifecycle.StepKeepsInv` | nvme/bdev_nvme.c:1601-1633 | population, depopulation, path deletion and bdev destruction in any order keep that |
| `NsLifecycle.DepopulateKeepsInv` | nvme/bdev_nvme.c:3956-3993 | depopulation keeps it, and its assertion that the bdev is still referenced holds |
| `NsLifecycle.DetachKeepsInv` | nvme/bdev_nvme.c:1609-1625 | so does one round of the destruct loop |
| `NsLifecycle.DepopulateLeadsTo` | nvme/bdev_nvme.c:3956-3993 | depopulating the last namespace of a bdev takes it out of the tree, unregisters the bdev and leaves the namespace on it; any other one leaves the bdev and stays in the tree until its path deletion is over |
| `NsLifecycle.SecondDepopulateFrees` | nvme/bdev_nvme.c:3956-3993 | a depopulation during the path deletion of an earlier one frees the namespace |
| `NsLifecycle.PopulateJoins` | nvme/bdev_nvme.c:3854-3923 | a new namespace joins the bdev it is for, creating it if there is none, and takes one reference |
| `NsLifecycle.DetachFreesIff` | nvme/bdev_nvme.c:1609-1625 | a detached namespace leaves its bdev, and is freed there if and only if no namespace with its id is in the tree of its controller |
| `NsLifecycle.LookupFindsSelf` | nvme/bdev_nvme.c:1616-1618 | while no id is used again early the lookup by id finds the namespace itself or nobody |
| `NsLifecycle.NvmeTables.PopulateNamespace` | nvme/bdev_nvme.c:3854-3923 | creates or joins the bdev of the id and takes one reference |
| `NsLifecycle.NvmeTables.DepopulateNamespace` | nvme/bdev_nvme.c:3956-3993 | leaves the last namespace to its bdev's destruction and cuts off any other |
| `NsLifecycle.NvmeTables.DepopulateNamespaceDone` | nvme/bdev_nvme.c:3926-3945 | frees the namespace unless a bdev still holds it |
| `NsLifecycle.NvmeTables.DeleteIoPathDone` | nvme/bdev_nvme.c:3947-3953 | ends one path deletion and takes the namespace out of the tree |
| `NsLifecycle.NvmeTables.DestructRound` | nvme/bdev_nvme.c:1610-1625 | detaches one namespace and frees it if its id is not in the tree any more |
| `NsLifecycle.NvmeTables.Destruct` | nvme/bdev_nvme.c:1601-1633 | an uninterrupted destruct empties the list, freeing exactly the namespaces whose ids are not in the tree |
| `PathSelect.FindIsCyclicallyNextBest` | nvme/bdev_nvme.c:876-913 | the scan returns the cyclically next usable optimized path, else the next non-optimized one, and nothing only if there is neither |
| `PathSelect.FoundIsUsable` | nvme/bdev_nvme.c:861-913 | whatever it finds is connected, its state is known and accessible; it finds nothing only if no path is all that |
| `PathSelect.NvmeBdevChannel.FindIoPathCircular` | nvme/bdev_nvme.c:876-913 | the do-while scan computes that and caches what the policy says |
| `PathSelect.NvmeBdevChannel.FindIoPathMinQd` | nvme/bdev_nvme.c:915-957 | the queue-depth scan computes the earliest least-loaded path of the better class |
| `PathSelect.LeastIsEarliestMinimum` | nvme/bdev_nvme.c:915-957 | that path has the fewest outstanding requests, and the first such wins; none only if no path qualifies |
| `PathSelect.NvmeBdevChannel.FindIoPath` | nvme/bdev_nvme.c:959-979 | dispatches on policy and selector, counting round-robin picks |
| `PathSelect.RoundRobinIsFair` | nvme/bdev_nvme.c:959-979 | with stable states, over k best-class paths every k * rr_min_io picks from a switch on give each exactly rr_min_io |
| `PathSelect.AcceptedPolicyIsFair` | nvme/bdev_nvme.c:4444-4454 | every rr_min_io the policy setter accepts is fair in that sense |
| `PathSelect.FindRotates` | nvme/bdev_nvme.c:876-913 | a switch goes to the next best-class path in list order, wrapping |
| `PathSelect.Block` | nvme/bdev_nvme.c:965-970 | from a switch on one path gets rr_min_io picks before the next switch |
| `PathSelect.ActivePassiveSticks` | nvme/bdev_nvme.c:962-964 | active-passive gives every I/O the same path while states are stable |
| `PathSelect.ActivePassiveFollows` | nvme/bdev_nvme.c:876-979 | over I/Os between which states change at will, active-passive gives each the first non-optimized path of its moment until one finds an optimized path, which then gets and keeps the first of those |
| `PathSelect.RoundRobinStep` | nvme/bdev_nvme.c:959-979 | whatever the states, an I/O before the switch stays and is counted, any other goes to the cyclically next best path and starts to count again |
| `PathSelect.QueueDepthStep` | nvme/bdev_nvme.c:915-957 | whatever is cached, queue depth takes the earliest least-loaded path of the better class |
| `RetryList.RetriesBoundedAndConserved` | nvme/bdev_nvme.c:1031-1122 | over every run of a fresh channel the list stays sorted without duplicates, a waiting I/O has a poller that is not late, each I/O has left the list as often as it entered it unless it is there now, and none enters it more than bdev_retry_count times |
| `RetryList.PollTakesExactlyDue` | nvme/bdev_nvme.c:1031-1063 | a poll resubmits exactly the due I/Os, none early |
| `RetryList.PlaceSeparates` | nvme/bdev_nvme.c:1075-1086 | an I/O is queued behind everything not later and before everything later: first come first served on ties |
| `RetryList.DueSeparates` | nvme/bdev_nvme.c:1039-1048 | the due I/Os are exactly a prefix of the list |
| `RetryList.EveryRequeueCountsIffPatched` | nvme/bdev_nvme.c:992-1013 | every requeue counts against the limit if and only if the availability test is the patched one |
| `RetryList.CompletionLeadsTo` | nvme/bdev_nvme.c:1253-1322 | a completion queues its I/O again if and only if it failed, is neither DNR nor aborted by request, has retries left and is no path error on an available path, due exactly the controller's delay later and counted; any other ends it, its count cleared |
| `RetryList.FinishedUntilSubmitted` | nvme/bdev_nvme.c:1253-1322 | over every run an I/O whose completion is not retried is neither running nor queued until it is submitted anew |
| `RetryList.SubmitAndFail` | nvme/bdev_nvme.c:992-1013 | a submission runs its I/O and an internal failure ends it, the list staying as it is |
| `RetryList.AbortsLeave` | nvme/bdev_nvme.c:1094-1122 | an abort of all empties the list, an abort of one takes out exactly that one |
| `RetryList.NvmeBdevChannel.IoCompleteNvmeStatus` | nvme/bdev_nvme.c:1253-1322 | retries or completes the I/O and keeps its count, as the completion and its path say |
| `RetryList.NextUseHasAllRetriesIff` | nvme/bdev_nvme.c:1093-1122 | however a use of an I/O object ends and whatever follows, its next use has all retries if and only if the use was not aborted on the list, alone or with all others, with a retry counted |
| `RetryList.AbortedRunShortensNextUse` | nvme/bdev_nvme.c:1093-1122 | a run from a fresh channel in which either abort leaves the next use one retry fewer |
| `RetryList.RoundDownTwice` | nvme/bdev_nvme.c:1052-1059 | the re-armed period, rounded to microseconds and back, never exceeds the ticks left |
| `RetryList.NvmeBdevChannel.QueueRetryIo` | nvme/bdev_nvme.c:1065-1092 | reverse scan and insertion, re-arming the poller only for a new head |
| `RetryList.NvmeBdevChannel.RetryIos` | nvme/bdev_nvme.c:1029-1063 | takes the due prefix in order and re-arms for the rest |
| `RetryList.NvmeBdevChannel.AbortRetryIos` | nvme/bdev_nvme.c:1094-1105 | aborts all in order and disarms |
| `RetryList.NvmeBdevChannel.AbortRetryIo` | nvme/bdev_nvme.c:1107-1122 | removes exactly the named I/O if it is queued |
| `FailoverPaths.FailedAlternativesLast` | nvme/bdev_nvme.c:1709-1742 | over every run of failovers, resets, additions and deletions of a new controller the un-failed alternatives to the active path precede the failed ones, and no path is listed twice |
| `FailoverPaths.FailoverPrefersWorkingPath` | nvme/bdev_nvme.c:1709-1742 | after any run, failover ends on a failed path if and only if every alternative is failed |
| `FailoverPaths.FailoversRotate` | nvme/bdev_nvme.c:1733-1737 | repeated failovers give every path its turn before any a second one |
| `FailoverPaths.DeleteKeepsUnchosen` | nvme/bdev_nvme.c:5409-5483 | a deletion keeps the paths not chosen, with their marks and in order, and of the chosen at most the active one: if the failover from it is refused or no other path is left |
| `FailoverPaths.DeletedAreGone` | nvme/bdev_nvme.c:5409-5483 | so no other chosen path is registered afterwards |
| `FailoverPaths.FailoverMovesHead` | nvme/bdev_nvme.c:1709-1742 | a removing failover frees the head, any other marks it failed and puts it last; the next path becomes the head and the others stay as they are |
| `FailoverPaths.AddInserts` | nvme/bdev_nvme.c:5136-5158 | an addition changes no other path and not the active one |
| `FailoverPaths.ResetMarksActive` | nvme/bdev_nvme.c:1971-1980 | the result of a reset marks the active path alone |
| `FailoverPaths.NvmeCtrlr.constructor` | nvme/bdev_nvme.c:4732-4741 | one path, active and un-failed |
| `FailoverPaths.NvmeCtrlr.RecordReset` | nvme/bdev_nvme.c:1971-1980 | the result of a reset is recorded at the head, which is the active path |
| `FailoverPaths.NvmeCtrlr.FailoverToNext` | nvme/bdev_nvme.c:1709-1742 | marks the head failed and moves or frees it if there is a next path, active_path_id following to the new head |
| `FailoverPaths.NvmeCtrlr.Failover` | nvme/bdev_nvme.c:2316-2349 | refused during destruction and resets; starts a reset unless a reconnect is delayed |
| `FailoverPaths.NvmeCtrlr.AddSecondaryTrid` | nvme/bdev_nvme.c:5102-5158 | refuses a registered path, else inserts before the first failed path that is not active; the active one stays the head |
| `FailoverPaths.NvmeCtrlr.DeletePaths` | nvme/bdev_nvme.c:5409-5483 | keeps exactly the paths not chosen, fails over from a chosen active one and frees it, deletes the controller with its only one, and reports a refused failover |
| `Pause.PauseIsSound` | nvmf/ctrlr.c:4303-4562 | over every run from a pause of an active group to its resumption, every namespace the pause named, idle or not, is marked, the I/Os in flight to it never gain a member, and there are none whenever the group is paused |
| `Pause.HeldTakesNone` | nvmf/ctrlr.c:4511-4515 | in every step no I/O to a marked namespace is admitted, and a new one that finds its channel is queued |
| `Pause.PauseHolds` | nvmf/nvmf.c:1688-1691 | pausing an active group marks every namespace it names, idle or not, and ends nothing |
| `Pause.PausedIsQuiet` | nvmf/ctrlr.c:4371-4419 | over every run, whenever a step makes the group paused no non-AER management request and no I/O to a marked namespace is in flight |
| `Pause.StepIsOk` | nvmf/ctrlr.c:4303-4562 | every step keeps each counter equal to the admitted, uncompleted requests plus its leak, and each pause is owed one completion |
| `PauseLeaks.CountersExact` | nvmf/ctrlr.c:4304-4530 | over every run of a fresh group the management counter is the requests it counts plus the event requests admitted on inactive queue pairs, each namespace counter is its I/Os in flight plus those of opcode 0x0c that were admitted and have ended, and each pause has had its one completion unless it is still owed |
| `PauseLeaks.MgmtLeaksIff` | nvmf/ctrlr.c:3526-3534 | the management counter leaks exactly when an asynchronous event request is admitted on an inactive queue pair |
| `PauseLeaks.IoLeakIs` | nvmf/ctrlr.c:4324-4331 | in every step a namespace's leak plus its I/Os of opcode 0x0c in flight grows exactly by the one admitted, so each of them leaks its count when it ends, in whichever step and way |
| `PauseLeaks.PauseCompletesIff` | nvmf/ctrlr.c:4371-4419 | some run lets a waiting pause complete if and only if nothing it waits for is leaked or going to leak, and no first of two fused commands is held for a pausing namespace unless some namespace with a channel is not pausing |
| `PauseLeaks.WholePauseCompletesIff` | nvmf/ctrlr.c:4032-4052 | a pause of the whole subsystem can complete if and only if no first of two fused commands is held and no count is leaked or going to leak |
| `PauseLeaks.LeakBlocksPause` | nvmf/ctrlr.c:4395-4416 | a leaked management count keeps the group from ever becoming paused, over every run |
| `PauseLeaks.NsLeakBlocksPause` | nvmf/ctrlr.c:4395-4416 | a leaked namespace count keeps every pause that includes the namespace from ever completing, over every run |
| `PauseLeaks.HeldFirstBlocksPause` | nvmf/ctrlr.c:4032-4052 | pausing the whole subsystem while the first of two fused commands is held never completes, over every run |
| `PauseLeaks.AerRunLeaks` | nvmf/ctrlr.c:3526-3534 | a run of a fresh group that leaks the management count |
| `PauseLeaks.VerifyRunLeaks` | nvmf/ctrlr.c:4324-4331 | runs of a fresh group that leak a namespace count, by a later completion and by one inside the submission |
| `PauseLeaks.FirstRunHolds` | nvmf/ctrlr.c:4032-4052 | a run of a fresh group that leaves a first compare held |
| `Pause.DispatchIoKeeps` | nvmf/ctrlr.c:4024-4102 | every path through the fused-command logic keeps the books |
| `Pause.DispatchMgmtKeeps` | nvmf/ctrlr.c:906-991 | so do connect retries and asynchronous event requests |
| `Pause.PauseKeeps` | nvmf/nvmf.c:1660-1730 | a pause signals at once only if nothing it waits for is counted |
| `PauseRequests.QueuedIff` | nvmf/ctrlr.c:4459-4530 | a request is queued, last and untouched, if and only if its group is not active, for a management request, or its namespace is marked, for an I/O |
| `PauseRequests.ActiveQueuesNothing` | nvmf/ctrlr.c:4459-4530 | an active group queues nothing, and its queue only gets shorter, from the head on |
| `PauseRequests.ResumeClears` | nvmf/nvmf.c:1743-1757 | resuming makes the group active and clears every mark, and ends nothing |
| `PauseRequests.QueueIsServed` | nvmf/nvmf.c:1758-1768 | after a pause every queued request is served in order: plain ones all come to be in flight, and none that was there ends |
| `PauseRequests.RefusedEnds` | nvmf/ctrlr.c:4459-4530 | a request that is not held ends at once, and no other does, on a queue pair that is not active or if its namespace does not exist or has no channel |
| `PauseRequests.MgmtLeadsTo` | nvmf/ctrlr.c:906-991 | a served management request ends at once if it is done, waits to be tried again if it is a connect that asks for it, and is counted until it completes otherwise; an asynchronous event request is never counted |
| `PauseRequests.CompletionEndsIff` | nvmf/ctrlr.c:4346-4369 | a completion ends its request unless it is a zero-copy one that has just started or has not been asked to end |
| `PauseRequests.ExecutesUntilEnd` | nvmf/ctrlr.c:4151-4160 | over every run a started zero-copy request goes on, and stays counted, until it is asked to end |
| `PauseRequests.EndThenCompletes` | nvmf/ctrlr.c:4151-4160 | once it is asked to end, the next completion ends it |
| `PauseRequests.FusedLeadsTo` | nvmf/ctrlr.c:4024-4102 | which fused commands are held, go on as a pair or end, for every way a first or second one meets its queue pair |
| `PauseRequests.SingleLeadsTo` | nvmf/ctrlr.c:4203-4242 | an ordinary command ends the one its queue pair holds, and itself only if it is done |
| `Pause.NvmfPollGroup.RequestComplete` | nvmf/ctrlr.c:4303-4419 | completion by zero-copy phase and opcode, with the pause check |
| `Pause.NvmfPollGroup.CheckSubsystemActive` | nvmf/ctrlr.c:4459-4530 | queues, refuses or counts a request exactly as its group, namespace and queue pair are |
| `Pause.NvmfPollGroup.ProcessIoCmd` | nvmf/ctrlr.c:4024-4102 | holds, pairs or aborts fused commands and completes what it finished |
| `Pause.NvmfPollGroup.PauseSubsystem` | nvmf/nvmf.c:1660-1730 | marks the namespaces and completes at once or leaves the completion owed |
| `AsyncEvents.EventsDeliveredInOrder` | nvmf/ctrlr.c:2120-2147 | over every run of a fresh controller the events delivered followed by those queued are the events raised, in order; requests and events never both wait; at most four requests wait and none waits twice, ends twice or waits after it ended |
| `AsyncEvents.YoungestRequestFirst` | nvmf/ctrlr.c:3688-3709 | events raised while requests wait are all delivered, the youngest request first |
| `AsyncEvents.NoticesCoalesce` | nvmf/ctrlr.c:3711-3810 | notices of a kind outnumber the host's reads of its log page by at most one, and without a read there is one exactly if the first enabled change is proper, an unknown error event silencing those after it |
| `AsyncEvents.RequestLeadsTo` | nvmf/ctrlr.c:2120-2147 | a request is refused if and only if four wait, takes the oldest waiting event if there is one, and waits behind the others otherwise |
| `AsyncEvents.AbortEnds` | nvmf/ctrlr.c:3120-3156 | an aborted request that waits is over without an event, all others go on waiting and the last takes its place; any other abort changes nothing |
| `AsyncEvents.AbortedStaysSilent` | nvmf/ctrlr.c:3120-3156 | over every run an aborted request never carries an event |
| `AsyncEvents.OverForGood` | nvmf/ctrlr.c:3682-3709 | over every run a request that is over stays so and carries no further event |
| `AsyncEvents.NvmfCtrlr.AsyncEventRequest` | nvmf/ctrlr.c:2120-2147 | refuses a fifth request, answers with the oldest event, or waits |
| `AsyncEvents.NvmfCtrlr.AsyncEventNotification` | nvmf/ctrlr.c:3682-3709 | completes the last request or queues the event |
| `AsyncEvents.NvmfCtrlr.CloseGap` | nvmf/ctrlr.c:3136-3147 | swap-removal keeps the array gap-free |
| `AsyncEvents.NvmfCtrlr.AbortAer` | nvmf/ctrlr.c:3120-3156 | aborts the request with the id if it is outstanding |
| `AsyncEvents.NvmfCtrlr.AbortAllAers` | nvmf/ctrlr.c:3834-3857 | completes all requests in slot order and empties the array |
| `CcCsts.EnabledIsReady` | nvmf/ctrlr.c:1147-1272 | over every run from power-on EN implies RDY, RDY without EN implies a reset disconnect in flight, and at most one disconnect is in flight |
| `CcCsts.FinishedResetZeroes` | nvmf/ctrlr.c:1047-1054 | a finished reset leaves CC and CSTS zero whatever was written meanwhile |
| `CcCsts.FinishedShutdownCompletes` | nvmf/ctrlr.c:1047-1049 | a finished shutdown reports completion and keeps the configuration |
| `CcCsts.ReenableSurvivesIff` | nvmf/ctrlr.c:1164-1194 | disabling and enabling again leaves the controller enabled if and only if some completion or timer in between found no I/O queue left or the deadline passed |
| `CcCsts.WithoutWrites` | nvmf/ctrlr.c:1019-1062 | over any completions, timers and fatal errors a disconnect ends exactly when one finds no I/O queue left or the deadline passed, and ends as its kind demands |
| `CcCsts.ShutdownHappensIff` | nvmf/ctrlr.c:1164-1222 | a notified shutdown is started, and reported complete under the notified value once everything has finished, if and only if the write does not clear EN and no disconnect is in progress; otherwise it is dropped and the write succeeds |
| `CcCsts.DisconnectKeepsKind` | nvmf/ctrlr.c:1173-1204 | no write changes the kind or deadline of a disconnect in flight |
| `CcCsts.DeadlineFinishes` | nvmf/ctrlr.c:1032-1044 | a completion at or after the deadline always finishes the disconnect |
| `CcCsts.WriteStores` | nvmf/ctrlr.c:1147-1272 | what a write stores and answers: EN at once unless a disconnect is in progress, each queue entry size in its own field unless the write stopped before; changes of AMS, MPS and of CSS beyond 6 are refused and none of them is ever stored |
| `CcCsts.DisconnectStartsIff` | nvmf/ctrlr.c:1164-1222 | a write starts a disconnect if and only if none is under way and it clears EN or notifies a shutdown; its kind and deadline |
| `CcCsts.FixedFieldsStay` | nvmf/ctrlr.c:1225-1272 | over every run AMS, MPS, CSS and reserved bits stay or, after a reset, are zero |
| `CcCsts.FatalIff` | nvmf/ctrlr.c:1019-1062 | over every run, while no reset finishes, CFS is set if and only if it was, the keep-alive timed out or a shutdown finished with queues left |
| `CcCsts.NvmfCtrlr.PropSetCc` | nvmf/ctrlr.c:1147-1272 | the write with its early returns and verdict |
| `CcCsts.NvmfCtrlr.CcResetShnDone` | nvmf/ctrlr.c:1019-1068 | the completion, its timer standing in while queues are left |
| `Abts.CollectHwqps` | nvmf/fc.c:758-783 | every queue with a connection of the remote port, once |
| `Abts.EveryAbtsAnsweredOnce` | nvmf/fc.c:737-836 | over every run each finished ABTS had exactly one BLS response, or none because its nport was deleted, and an unfinished one none |
| `Abts.FoundIsNotRejected` | nvmf/fc.c:683-735 | if a queue has found the exchange in the present round the ABTS is never rejected |
| `Abts.NotFoundIsNotAccepted` | nvmf/fc.c:683-735 | if no queue finds it from here on the ABTS is never accepted |
| `Abts.AcceptedIffFound` | nvmf/fc.c:683-836 | over every run a finished ABTS whose nport is alive was accepted if and only if some queue's poller found the exchange after its last sync, that is in the deciding round, and was rejected otherwise |
| `Abts.FindIsPositive` | nvmf/fc_ls.c:1557-1576 | a find makes the round positive |
| `Abts.Begins` | nvmf/fc.c:737-836 | an ABTS begins with its frame, unsynced and with every queue asked; one that names no queue is rejected at once |
| `Abts.AnswerLeadsTo` | nvmf/fc.c:683-735 | the last answer of a round ends the exchange unless nothing was found, its queues were not synced yet and a sync can start: then every queue is asked to sync; any other answer is waited for |
| `Abts.SyncLeadsTo` | nvmf/fc.c:592-627 | the last sync starts a second round in which every queue is asked anew |
| `Abts.RejectedOnlyAfterSync` | nvmf/fc.c:629-735 | over every run no exchange is rejected before its queues were synced, as long as a sync can start |
| `Abts.DroppedIffNportGone` | nvmf/fc.c:683-735 | over every run an ABTS is dropped if and only if its nport was deleted before its last reply came |
| `Abts.DeliverDecides` | nvmf/fc.c:683-735 | the last answer of a round decides by what the round found; rejection needs a synced queue or no sync to be had |
| `Abts.SyncDoneKeepsInv` | nvmf/fc_ls.c:1594-1621 | a finished sync finds on its queue's list exactly the exchange it was posted for |
| `Abts.RankDecreases` | nvmf/fc.c:592-735 | every event brings an ABTS closer to its end by the measure of synced, phase and missing replies |
| `Abts.AbtsEnds` | nvmf/fc.c:592-735 | so the events of one ABTS are bounded |
| `Abts.RankBound` | nvmf/fc.c:592-681 | by nine per queue asked: one sync round at most |
| `Abts.NextEvent` | nvmf/fc.c:592-735 | an unfinished ABTS always has a next event that brings it closer |
| `Abts.FcAbtsCtx.AbtsHandled` | nvmf/fc.c:683-735 | counts the answer and waits, syncs, responds or drops |
| `Abts.FcAbtsCtx.QueueSynced` | nvmf/fc.c:592-627 | counts the sync and starts the second round after the last |
| `FcTeardown.ConnectionsDeletedOnce` | nvmf/fc_ls.c:180-204 | over every run of a fresh port the connections in use and available partition the preallocated set, the connection count is exact, and a connection in use had exactly one delete sent if it or its association is being deleted, none otherwise |
| `FcTeardown.CallbacksRunExactlyOnce` | nvmf/fc_ls.c:626-760 | over every run each registered callback has run exactly once or is still chained to a live connection or association, and nothing else runs |
| `FcTeardown.RportFreedExactlyOnce` | nvmf/fc.c:2469-2615 | over every run both association counters are exact and a remote port is freed, once, exactly when its I_T delete has begun and its last association is gone |
| `FcTeardown.DeletesCoalesce` | nvmf/fc_ls.c:424-468 | however often a connection's or its association's deletion is requested one DEL_CONNECTION is sent |
| `FcTeardown.DeletedAssocDrains` | nvmf/fc_ls.c:1076-1079 | an association being deleted gets no connection and loses one with each completion |
| `FcTeardown.AssociationCreatedIff` | nvmf/fc_ls.c:862-995 | an association is created, with one connection, if and only if its remote port is known and not being deleted |
| `FcTeardown.ConnectionCreatedIff` | nvmf/fc_ls.c:1071-1093 | a connection is created if and only if its association is not being deleted and is below its limit; it is the first available one and starts afresh, and nothing else changes |
| `FcTeardown.DeleteIsChained` | nvmf/fc_ls.c:423-468 | a deletion request chains its callback behind the others and marks the connection, told once |
| `FcTeardown.AssocDeleteIsChained` | nvmf/fc_ls.c:702-760 | the same of an association, with every connection in use |
| `FcTeardown.DeletedConnReturns` | nvmf/fc_ls.c:405-421 | a deleted connection goes back to the end of the pool and its callbacks run in order |
| `FcTeardown.QueueIsAssigned` | nvmf/fc.c:2122-2165 | a connection that is given its hardware queue has it from then on, and nothing else changes |
| `FcTeardown.ItDeleteMarks` | nvmf/fc.c:3556-3627 | an I_T delete is accepted if and only if its remote port is known and not being deleted, and marks it; without associations the port is freed at once |
| `FcTeardown.ItDeleteLeadsTo` | nvmf/fc.c:2535-2615 | it deletes every association of the port, each with a callback of its own behind those already chained, and touches no other |
| `FcTeardown.LastConnectionRunsAll` | nvmf/fc_ls.c:627-697 | the last connection runs all chained callbacks, those of the association first |
| `FcTeardown.SecondItDeleteRefused` | nvmf/fc.c:3556-3627 | once an I_T delete has begun, over every run each further one is answered -ENODEV and neither it nor a new association changes anything |
| `FcTeardown.CrashesIff` | nvmf/fc_ls.c:449-466 | over every run of a fresh port the code crashes in a step if and only if that is a delete reaching, for the first time, a connection whose hardware queue is not assigned yet |
| `FcTeardown.EarlyDeleteCrashes` | nvmf/fc_ls.c:449-466 | a run of a fresh port in which an association is deleted before its first connection has a queue |
| `FcTeardown.FailedAddFindsNoDelete` | nvmf/fc_ls.c:519-547 | over every run a connection whose addition fails was never asked to be deleted, so none of its callbacks is lost |
| `FcTeardown.AssignQueueKeepsInv` | nvmf/fc.c:2122-2165 | the assignment of a hardware queue keeps the accounting |
| `FcTeardown.ItDeleteKeepsInv` | nvmf/fc.c:2535-2615 | an I_T delete registers once with every association of the remote port |
| `FcTeardown.EndConnKeepsInv` | nvmf/fc_ls.c:405-421 | the end of a connection keeps counters and callbacks accounted for |
| `FcTeardown.AvailIfRoom` | nvmf/fc_ls.c:1080-1093 | below the limit there is always a connection left to use |
| `FcTeardown.FcAssociation.constructor` | nvmf/fc_ls.c:180-204 | preallocates the connections and uses the first |
| `FcTeardown.FcAssociation.NewConnection` | nvmf/fc_ls.c:291-340 | moves the first available connection into use |
| `FcTeardown.FcAssociation.PollerDeleteConn` | nvmf/fc_ls.c:423-468 | chains the callback and sends to the poller only from the created state |
| `FcTeardown.FcAssociation.DeleteAssociation` | nvmf/fc_ls.c:702-760 | chains the callback and, the first time, deletes every connection |
| `FcTeardown.FcAssociation.ReleaseConnection` | nvmf/fc_ls.c:626-641 | gives the connection back and tells whether it was the last |
| `DsmUnmap.UnmapCompletesOnce` | nvmf/ctrlr_bdev.c:534-645 | over every run without a harmful hard error the ranges are submitted once each in order, the request completes exactly once with nothing in flight, and reports success exactly if everything succeeded |
| `DsmUnmap.StepKeepsInv` | nvmf/ctrlr_bdev.c:534-645 | count is the ranges in flight plus one if queued |
| `DsmUnmap.LostIff` | nvmf/ctrlr_bdev.c:565-574 | the request is lost if and only if a resubmission meets a hard error with nothing else in flight |
| `DsmUnmap.LostForever` | nvmf/ctrlr_bdev.c:565-574 | and then nothing is left that could complete it |
| `DsmUnmap.NextEvent` | nvmf/ctrlr_bdev.c:534-645 | until the context is freed something is always to come |
| `DsmUnmap.CallLeadsTo` | nvmf/ctrlr_bdev.c:612-638 | a call hands over ranges in order until one is refused; out of memory leaves the request queued, any other refusal makes its status an internal device error and abandons the rest |
| `DsmUnmap.FirstErrorIsReported` | nvmf/ctrlr_bdev.c:534-560 | over every run without a hard error the status is the first error of the completions |
| `DsmUnmap.NvmfBdevCtrlrUnmap.SubmitRanges` | nvmf/ctrlr_bdev.c:612-638 | the submission loop with its three outcomes |
| `DsmUnmap.NvmfBdevCtrlrUnmap.UnmapRanges` | nvmf/ctrlr_bdev.c:577-645 | the call and its dropped or acted-on result |
| `DsmUnmap.NvmfBdevCtrlrUnmap.UnmapCpl` | nvmf/ctrlr_bdev.c:534-560 | the completion keeps the first error and completes the request with the last range |
| `DiscoverySync.RoundEndsExact` | nvme/bdev_nvme.c:5734-5833 | however the attaches of a page end and whatever comes between, if no other page does, its cleanup leaves exactly the page's NVM entries known when it arrived or whose attach it started |
| `DiscoverySync.RoundIsExact` | nvme/bdev_nvme.c:5734-5833 | after a page's loop and cleanup the known entries are, without duplicates, exactly the page's NVM entries known before or whose attach was started |
| `DiscoverySync.SyncFinds` | nvme/bdev_nvme.c:5757-5829 | old entries stay in place; equal subsystems share a name and different ones do not |
| `DiscoverySync.SyncOneNames` | nvme/bdev_nvme.c:5772-5827 | a new entry is named like the known ones of its subsystem or gets the next number, used up only then and even if the attach does not start |
| `DiscoverySync.AttachesBalance` | nvme/bdev_nvme.c:5698-5713 | over every run the attaches in progress are those started minus those that ended |
| `DiscoverySync.CleanupOncePerRound` | nvme/bdev_nvme.c:5698-5713 | over every run of a new service rounds stay apart all along if and only if every reconnection finds no fetch outstanding and no attach in progress; then every page but the one being worked on has had its one cleanup |
| `DiscoverySync.StaysApartIff` | nvme/bdev_nvme.c:5897-5998 | in every step rounds that are apart collide if and only if it is a reconnection with a fetch outstanding or an attach in progress |
| `DiscoverySync.OverwriteIff` | nvme/bdev_nvme.c:5750-5752 | some run without such a reconnection overwrites a page that is being worked on if and only if rounds have collided before |
| `DiscoverySync.StepCleansUp` | nvme/bdev_nvme.c:5698-5713 | cleanup runs in a step if and only if it is the last attach or a page that leaves none, and a page is overwritten exactly by one that arrives during attaches |
| `DiscoverySync.OverwrittenRun` | nvme/bdev_nvme.c:5897-5998 | a run with a reconnection during an attach in which two pages share one cleanup |
| `DiscoverySync.SecondFetchRun` | nvme/bdev_nvme.c:5897-5998 | a run with a reconnection during an attach in which a notice starts a second fetch beside the first |
| `DiscoverySync.NoticesCauseOneFetch` | nvme/bdev_nvme.c:5572-5581 | any number of notices between two cleanups while in_progress is set cause exactly one fetch, right after the second, and none causes none; all others in between come from reconnections |
| `DiscoverySync.NoticeFetchesAloneIff` | nvme/bdev_nvme.c:5850-5872 | a notice that finds in_progress clear starts the only round there is if and only if rounds are apart |
| `DiscoverySync.FailedFetchBlocks` | nvme/bdev_nvme.c:5745-5748 | after a failed fetch no notice leads to another one until the controller is connected again |
| `DiscoverySync.AssertionHoldsIff` | nvme/bdev_nvme.c:5836-5847 | over every run of a new service the assertion that no round is in progress holds at a reconnection if and only if every fetch sent has been followed by a cleanup |
| `DiscoverySync.ReconnectAssertionIff` | nvme/bdev_nvme.c:5836-5847 | while no reconnection has made rounds collide before, it holds if and only if no attach is in progress, no fetch is outstanding and none has failed since the last connection |
| `DiscoverySync.AttachRunBreaksAssertion` | nvme/bdev_nvme.c:5897-5998 | a run whose reconnection during an attach breaks the assertion although no fetch has failed |
| `DiscoverySync.FailedRunBreaksAssertion` | nvme/bdev_nvme.c:5836-5847 | a notice whose fetch fails is a run that breaks it |
| `DiscoverySync.ServiceStaysConsistent` | nvme/bdev_nvme.c:5734-5872 | over every run of a new service, whenever it reconnects, no entry is known twice, a page is kept exactly while attaches are in progress, a notice waits only during a round, and every page was cleaned up once unless it is kept or was overwritten |
| `DiscoverySync.DiscoveryCtx.LogPageCb` | nvme/bdev_nvme.c:5734-5833 | the page loop, and the cleanup if nothing was started |
| `DiscoverySync.DiscoveryCtx.ConsiderEntry` | nvme/bdev_nvme.c:5772-5827 | starts an attach for an unknown NVM entry under its subsystem's name |
| `DiscoverySync.DiscoveryCtx.RemoveControllers` | nvme/bdev_nvme.c:5645-5683 | keeps exactly the known entries that are on the page |
| `DiscoverySync.DiscoveryCtx.AttachControllerDone` | nvme/bdev_nvme.c:5698-5713 | cleans up after the last attach |
| `DiscoverySync.DiscoveryCtx.AerCb` | nvme/bdev_nvme.c:5850-5872 | remembers a notice during a round, else fetches |
| `DiscoverySync.DiscoveryCtx.Complete` | nvme/bdev_nvme.c:5572-5581 | ends the round and fetches again if a notice is remembered |
| `Sump.PickIs` | sump_ctrl.c:292-311 | the pick is the hashed path if available, else the first available one, and fails only if none is |
| `Sump.SubmitSurvivesIff` | sump_data.c:47-59 | a submission survives if and only if num_blocks is not zero and some path is available |
| `Sump.EachPathTriedOnce` | sump_data.c:19-69 | over every run of a fresh channel, up to a crash if there is one, callbacks are wrapped one level deep, no I/O tries a path twice, and each caller's callback is called at most once, after which its I/O is gone |
| `Sump.TriesBounded` | sump_ctrl.c:20-57 | an I/O is submitted at most once per path |
| `Sump.OriginalCallbackUsed` | sump_ctrl.c:20-57 | an I/O carries the caller's callback and argument until its first success, which calls exactly them |
| `Sump.RetryPossibleIff` | sump_ctrl.c:33-51 | the resubmission of a failed I/O survives if and only if a path is left besides the failed one |
| `Sump.RequestGoesTo` | sump_data.c:19-69 | a request goes to the path of the hash of its own offset if that is available, else to the first available one, and touches nothing else |
| `Sump.RetryGoesTo` | sump_ctrl.c:20-57 | a retry marks down the failed path alone and goes by the hash of the same I/O again |
| `Sump.TimeQueue.UpdateIoTimeDetail` | sump_ctrl.c:172-190 | the window holds the last twenty samples, the sum and the rounded average are theirs |
| `Sump.UmpBdevChannel.constructor` | sump_ctrl.c:342-392 | paths are numbered in list order, all available, and max_id is their number |
| `Sump.UmpBdevChannel.FindIoPathHash` | sump_ctrl.c:292-311 | the two scans compute the pick, unless a division traps |
| `Sump.UmpBdevChannel.SubmitRequest` | sump_data.c:19-69 | wraps the callback and picks the path, or crashes on the way |
| `Sump.UmpBdevChannel.IoCompletionCb` | sump_ctrl.c:20-57 | calls the original callback on success, else marks the path down, unwraps and submits again |

## Left out

Assumptions and deliberate limits, by component:

- CtrlrLifecycle.UnregisteredExactlyOnce: assumes that the delayed-reconnect disconnect is accepted and that no reset is admitted while a delayed reconnect is on its way; `UnregisteredIs`, `SurplusIs` and `TwiceIff` do without. The driver is taken to refuse a disconnect while another one, a reconnect or the delay is under way, as its comment says; debug assertions are not modelled.
- CtrlrLifecycle.BlockedHasNextStep: says nothing of an admin queue poll that fails with an error other than -ENXIO while a disconnect callback is pending.
- NsLifecycle.NamespacesFreed: assumes that path addition succeeds and that no namespace joins a bdev that is already being destructed; what a second free does to memory is not modelled. A bdev's namespace list is a set, its order is not modelled, and adding I/O paths on all channels counts as one step.
- PathSelect.RoundRobinIsFair: states are stable during the picks; the path list itself is fixed within one call.
- RetryList.RetriesBoundedAndConserved: a poll's resubmissions are separate steps, since with the patched availability test none of them can queue an I/O again synchronously; the conversion of a poller period to ticks is the SPDK library's rounding down.
- Pause.PauseIsSound: namespaces are neither added nor resized meanwhile, pauses and resumes are issued one at a time as the subsystem does, and queue pairs are not destroyed with requests in flight; requests sent before a connection has a controller are not counted by the code and not modelled. A pause of a group that is already paused is answered at once.
- AsyncEvents.EventsDeliveredInOrder: event allocation succeeds and controller migration is not modelled.
- CcCsts.EnabledIsReady: restoring a migrated controller is not modelled; the association and keep-alive timers, which touch no register here except the fatal status, are not either.
- Abts.EveryAbtsAnsweredOnce: allocations succeed apart from the queue sync's, and unique ids do not wrap around 32 bits while an ABTS is open.
- FcTeardown.RportFreedExactlyOnce: as in all of `FcTeardown`, allocations succeed and remote ports of an nport differ in S_ID; the LS disconnect request and LS responses are not modelled. The methods of `FcAssociation` do the bookkeeping, not the sending of messages.
- DsmUnmap.UnmapCompletesOnce: the check of the ranges against the data length, which precedes everything and does not change between calls, is not modelled.
- DiscoverySync.RoundEndsExact: one discovery service that is not being stopped; subsystem names shared with other services are not modelled, and a command that cannot be sent counts as one that fails.
- Sump.EachPathTriedOnce: no failback makes a path available again; the per-path byte counter array, which has four entries, is not modelled.
- DiscoveryRead.GetDiscoveryLogPage: memory around the log page is a byte for every 64-bit offset; that some of it may not be readable is not modelled.
- AnaTarget.CountersDrift: group counters are taken not to wrap around 32 bits.
- Scatter.CopyCtx.CopyBuf: vectors of one request are taken to be disjoint memory, and bytes to be numbers below 256.

Parts of the repository that are not modelled:

- JSON-RPC handlers and configuration dumps: parsing and formatting.
- The mDNS client and the Opal vbdev: wrappers over other libraries.
- Function hijacking, structure padding, logging, tracing and statistics.
- The sump selectors based on random numbers, latencies or queue length, and its round robin, which restarts at the head when a path is down and so is not fair.
- Repeated sump failback: the `reconnecting` flag is never cleared after a recovery.
- Identify data, Get and Set Features, reservations: tables and decisions that one reading settles.
- The remaining transports and the low-level Fibre Channel driver, whose part here is to deliver completions.
