# Cyrene platform: verified models

Dafny models of the parts of the Cyrene platform whose correctness is hardest to
see from the code, with proofs about every input, every run and every reachable
state. `dafny verify dfyconfig.toml` checks the whole project.

| files | component |
|---|---|
| `Bits`, `DeviceFilter` | the cgroup device filter: number decoding, rule lists, and the compiler from rules to BPF instructions with an interpreter for them |
| `JournalFile`, `RecoveryView`, `Classification`, `EventReplay`, `RestartJournal`, `KeyOrder` | the Kernel's restart journal: torn writes, recovery, epochs and fences, reconciliation, event replay |
| `GatedLaunch` | the two-process launch protocol over a gate pipe and an error pipe, in all interleavings |
| `ChildTable`, `ConcurrentReaping` | tracking and reaping of launched children, one wait at a time and with launches and waits interleaved |
| `Paths`, `ServiceGroup`, `DelegatedMove` | the daemon's move into its control leaf, for arbitrary answers of the cgroup filesystem and for a quiet tree |
| `Reachability`, `ContractDocuments`, `ContractPaths`, `ReleaseClosure`, `SharedClosure` | two builders that collect contract documents along their references |
| `DocumentGraph` | loaded documents with shared nodes, and when a scan of them ends |
| `OrderedStop`, `LocalRuntime` | the local supervisor: ordered stop under a shared time budget, socket ownership, rollback of a failed start |
| `ReleaseIndex` | the release index builder against its independently written validator |

Clocks, file contents, write outcomes, answers of the kernel and of libraries are
parameters or arbitrary values, so each statement holds for all of them. Integer
widths and saturation are explicit. Times in the supervisor are reals, and sleeps
take exactly as long as asked. Rust paths and process tables are modelled by their
components, and error messages by their codes.

## Findings

Statements that one might expect and that do not hold of the code. Each is settled
by a counterexample, an exact condition, or both.

- A device rule with a field of 2^31 or more never matches, because immediates are
  sign-extended (`DeviceFilter.FilterDecides` is exact for every 32-bit rule; no
  decoded device number is that large).
- An append after a torn tail joins the torn line. The next start still succeeds,
  and every start after it is refused (`RestartJournal.TornTailRefusesSecondStart`).
  A write that stops inside a multi-byte character makes the file unreadable at
  once (`JournalFile.AppendKeepsReadable`).
- Epochs and fence tokens grow strictly exactly as long as the recorded value is
  below the largest u64 (`RestartJournal.EveryStartAdvances`).
- `append_event` does not compare sequence numbers: an event that does not continue
  its stream is stored and spoils the journal (`EventReplay.StaleEventSpoils`). Every
  replay then fails, whatever is appended later, and this happens exactly to spoiled
  journals (`RestartJournal.ReplayFailureIsPermanent`). A bad record on an unfinished
  line is different: a torn write on top of it hides it.
- The journal's interface documentation says that a launch that was only announced
  is classified after a restart. `recover` looks at completed launches only, so an
  announced one changes nothing (`RecoveryView.AnnouncedLaunchIsInvisible`).
- `release` can report success without an exec: when the child is killed from outside
  (`GatedLaunch.KilledChildLooksLaunched`), or when the write of its report fails
  (`GatedLaunch.SilentFailureLooksLaunched`). It cannot otherwise
  (`GatedLaunch.SuccessMeansExec`).
- A launch that `release` or its abort rejects can leave a live child: after a failed
  gate write (`GatedLaunch.FailedGateLeavesChild`), after a failed wait of an abort
  (`GatedLaunch.FailedWaitLeavesChild`), and after a failed reading of the error pipe,
  where the program may even run (`GatedLaunch.RejectedChildExecutes`). No other
  rejection of these two does (`GatedLaunch.RejectionOutcome`). Later still, `launch` can
  fail on a poisoned lock and leave the released program running and untracked
  (`ConcurrentReaping.AbandonedChildLives`).
- An absent row does not mean a reaped child. A launch enters the row of its child long
  after the fork (`ConcurrentReaping.LaunchHasNoRow`), and a failed `waitpid` drops the
  row all the same (`ConcurrentReaping.FailedWaitForgetsChild`).
  `ConcurrentReaping.AbsentRowMeansReaped` lists all that it can mean.
- A fork that reuses a process identifier puts the new child at risk exactly when some
  thread is inside a wait on the identifier, or a row is left for it
  (`ConcurrentReaping.ReuseIsTheRisk`). The new child can be lost
  (`ConcurrentReaping.ReuseLosesChild`) or be reaped by a row of another launch
  (`ConcurrentReaping.ReuseReapsStranger`), the latter even if no identifier is ever
  reused during a wait (`ConcurrentReaping.StaleRowReapsStranger`).
- A wait reaps the launch it was called for exactly when that launch was not reaped
  before (`ConcurrentReaping.WaitReapsForItsCaller`). Otherwise it goes on polling and
  takes the next child with the same identifier, even in a quiet run
  (`ConcurrentReaping.CallerReapsStranger`).
- Rerunning the delegated move fails exactly when the worker root is the control leaf
  itself (`DelegatedMove.RerunIsIdle`, `DelegatedMove.StartTwice`), and the service
  group is found again exactly when its own name is not the leaf's
  (`ServiceGroup.ServiceSurvivesMove`). A successor prepares the service again unless
  its group is named like the leaf right under the mount
  (`DelegatedMove.StartAfterExit`).
- A dead child keeps its process entry until it is reaped, and the rollback of a
  start does not reap the components recorded before. It therefore ends cleanly only
  if all of these were gone before it began (`LocalRuntime.Supervisor.Rollback`).
- A failed `up` can leave a live component without a record: only the one started
  last, and only when its start time could not be read or the records could not be
  written in the end (`LocalRuntime.Supervisor.Up`). A failing last write of `down`
  may have replaced the file already (`LocalRuntime.Supervisor.Down`).
- The identity of a socket is checked when it is read, not when it is unlinked. What is
  removed is surely the recorded socket only if nobody binds in between
  (`LocalRuntime.Supervisor.RemoveOwnedSockets`).
- A manifest may omit its compatibility group version, but an index cannot be built
  from such a manifest (`ReleaseIndex.CreateIndex`).
- The two contract builders differ on a `$ref` that is not a text: the release
  collector refuses it, the v2 builder ignores it.
- A scan of a document does not always end. The YAML loaders replace the constructor
  of mappings only, so a sequence may be anchored inside itself (`x: &a [*a]`), and
  the scan of such a document goes on forever
  (`DocumentGraph.SelfHoldingListNeverEnds`). A scan ends exactly when no node it
  meets contains itself (`DocumentGraph.ScanEndsExactly`).

## Model

| member | source | states |
|---|---|---|
| DeviceFilter.MakeInsn | adapters/execution/sandboxd/src/bpf.rs:500-507 | the register byte gives back both register numbers |
| DeviceFilter.PatchSkips | adapters/execution/sandboxd/src/bpf.rs:489-491 | exactly the listed skips are pointed at the next rule, all other instructions stay |
| DeviceFilter.EmitRule | adapters/execution/sandboxd/src/bpf.rs:476-492 | pushing and back-patching emits the eight instructions of the rule, whatever program precedes them |
| DeviceFilter.BuildDeviceFilterProgram | adapters/execution/sandboxd/src/bpf.rs:467-497 | the emitting loop gives the compiled program, and that program decides the rule list for every access |
| DeviceFilter.MoreStepsSameOutcome | adapters/execution/sandboxd/src/bpf.rs:510-532 | an outcome of the interpreter does not depend on the number of steps allowed |
| DeviceFilter.ImmediateComparison | adapters/execution/sandboxd/src/bpf.rs:477-483 | a sign-extended immediate equals a loaded word exactly when the field is below 2^31 and equal |
| DeviceFilter.RunTest | adapters/execution/sandboxd/src/bpf.rs:477-485 | a comparison with its skip goes on exactly when the field is below 2^31 and equal, and otherwise takes the skip |
| DeviceFilter.RunBlock | adapters/execution/sandboxd/src/bpf.rs:476-492 | the code of a rule exits with 1 on a match and otherwise reaches the next rule with every register unchanged |
| DeviceFilter.RunFrom | adapters/execution/sandboxd/src/bpf.rs:475-497 | from any rule on, the program exits with 1 exactly when one of the remaining rules matches |
| DeviceFilter.FilterDecides | adapters/execution/sandboxd/src/bpf.rs:467-497 | for every rule list and every 32-bit context the program exits within 6 + 4n steps, without reading an unwritten register, with 1 exactly when a rule with all fields below 2^31 equals masked access word, major and minor, and with 0 otherwise |
| DeviceFilter.JumpsGoForward | adapters/execution/sandboxd/src/bpf.rs:477-491 | every jump lands strictly forward and inside the program |
| DeviceFilter.DecodeInvertsPack | adapters/execution/sandboxd/src/bpf.rs:398-399 | decoding inverts the packing for majors below 2^12 and minors below 2^20 |
| DeviceFilter.PackInvertsDecode | adapters/hardware/nvidia/src/discovery.rs:461-462 | packing the decoded numbers restores the low 32 bits |
| DeviceFilter.DecodeInjective | adapters/execution/sandboxd/src/bpf.rs:398-399 | two device identities decode alike exactly when their low 32 bits agree |
| DeviceFilter.RecheckIsExact | adapters/execution/sandboxd/src/bpf.rs:400-413 | a node that the adapter captured passes the identity check exactly when the low 32 bits are unchanged |
| DeviceFilter.DeviceRules | adapters/execution/sandboxd/src/bpf.rs:152-167 | the rules of all nodes, the first error in node order, or the error for no rule at all |
| DeviceFilter.BindingFilterDecides | adapters/execution/sandboxd/src/bpf.rs:152-167 | the rules of a binding decide every access by the devices now behind its nodes |
| DeviceFilter.BuildBindingFilter | adapters/execution/sandboxd/src/bpf.rs:61-71 | a filter is built exactly when every node is unchanged, or optional and absent, and one is present; it admits exactly the accesses to the devices now behind the nodes |
| JournalFile.AppendShape | runtime/cyrene-kernel/src/runtime_journal.rs:224-236 | what an append cut off anywhere does to the finished lines and to the tail |
| JournalFile.AppendKeepsReadable | runtime/cyrene-kernel/src/runtime_journal.rs:159-177 | a journal stays readable exactly when it was readable, the write did not stop inside a character, and no line was finished on a torn tail |
| JournalFile.AppendAddsRecord | runtime/cyrene-kernel/src/runtime_journal.rs:224-236 | a complete append to an untorn journal adds exactly its record |
| JournalFile.DoneRecordsStay | runtime/cyrene-kernel/src/runtime_journal.rs:224-236 | records of finished lines are never lost by later appends |
| JournalFile.DoneRecordsAreRead | runtime/cyrene-kernel/src/runtime_journal.rs:159-177 | a reader sees every record of a finished line |
| JournalFile.ReadableLineByLine | runtime/cyrene-kernel/src/runtime_journal.rs:159-177 | the reader's line test with its final-newline exception accepts exactly the readable files |
| RecoveryView.MaximaAreBounds | runtime/cyrene-kernel/src/runtime_journal.rs:178-180 | the folded maxima are attained bounds on the node's epochs and fence tokens |
| RecoveryView.TableIsOpenLaunches | runtime/cyrene-kernel/src/runtime_journal.rs:181-214 | the folded table holds an instance exactly when its last launch has no later closing record by name or by lease and fence, and then holds that launch |
| RecoveryView.TableRows | runtime/cyrene-kernel/src/runtime_journal.rs:181-214 | every row is filed under its own name and is a recorded launch of the node |
| RecoveryView.OtherNodesAreInvisible | runtime/cyrene-kernel/src/runtime_journal.rs:178-215 | a record of another node, anywhere in the log, changes no result |
| RecoveryView.AnnouncedLaunchIsInvisible | runtime/cyrene-kernel/src/runtime_journal.rs:181-214 | a launch that was only announced, anywhere in the log, changes no recovered process |
| Classification.FindUnmatched | runtime/cyrene-kernel/src/runtime_journal.rs:356-366 | the first unmatched record with the observed evidence, or none |
| Classification.ClassifyOne | runtime/cyrene-kernel/src/runtime_journal.rs:355-385 | one observation is paired with an unused record of equal evidence, or is foreign to all unused records |
| Classification.AppendUnknown | runtime/cyrene-kernel/src/runtime_journal.rs:386-394 | every record left over becomes an unknown candidate |
| Classification.ClassifyRecovery | runtime/cyrene-kernel/src/runtime_journal.rs:349-396 | the candidates are an exact partition of observations and records, each used once, with the right verdicts |
| Classification.PartitionCounts | runtime/cyrene-kernel/src/runtime_journal.rs:349-396 | for each evidence value the pairs are the minimum of both counts, surplus observations are Foreign and surplus records Unknown |
| EventReplay.SelectIsFilter | runtime/cyrene-kernel/src/runtime_journal.rs:238-347 | a selected stream holds exactly the events of its namespace and source, each once and in log order |
| EventReplay.RememberStep | runtime/cyrene-kernel/src/runtime_journal.rs:327-341 | comparing with the remembered sequence number is comparing with all earlier events of the stream |
| EventReplay.TakeRecord | runtime/cyrene-kernel/src/runtime_journal.rs:278-344 | one record is taken exactly when it is well formed and continues its stream |
| EventReplay.ReplayLines | runtime/cyrene-kernel/src/runtime_journal.rs:259-346 | the reading loop succeeds exactly on a well-formed log that is strictly ordered per stream |
| EventReplay.ReplayEvents | runtime/cyrene-kernel/src/runtime_journal.rs:238-347 | replay succeeds exactly when every record is well formed and each stream increases over the whole log, and then returns exactly the matching events in append order |
| EventReplay.PublishExtendsReplay | runtime/cyrene-kernel/src/runtime_journal.rs:499-533 | an accepted event keeps the journal replayable exactly when it continues its stream, and extends that replay and no other by itself |
| EventReplay.StaleEventSpoils | runtime/cyrene-kernel/src/runtime_journal.rs:499-533 | an accepted event that does not continue its stream spoils the journal it is published to |
| EventReplay.SpoiledStays | runtime/cyrene-kernel/src/runtime_journal.rs:224-236 | no append, cut off anywhere, repairs a spoiled journal |
| EventReplay.TornWriteRepairs | runtime/cyrene-kernel/src/runtime_journal.rs:259-277 | a bad record on an unfinished line is hidden by a torn write on top of it |
| EventReplay.LifecycleKeepsReplay | runtime/cyrene-kernel/src/runtime_journal.rs:469-495 | a lifecycle record changes no replay |
| RestartJournal.ReadUpToIsFold | runtime/cyrene-kernel/src/runtime_journal.rs:162-216 | reading line by line gives the folds over the parsed records |
| RestartJournal.RecoverLines | runtime/cyrene-kernel/src/runtime_journal.rs:162-216 | the reader's loop stops exactly at a line that is no record, except an unterminated last one |
| RestartJournal.RecoverContents | runtime/cyrene-kernel/src/runtime_journal.rs:148-222 | recovery succeeds exactly on readable files, with the maxima and the open rows in key order |
| RestartJournal.CompletedStays | runtime/cyrene-kernel/src/runtime_journal.rs:224-236 | a completed append is in the file for as long as the file can be read |
| RestartJournal.StartIsAhead | runtime/cyrene-kernel/src/runtime_journal.rs:126-146 | the epoch and fence a start would use are above those of every completed record, saturation aside |
| RestartJournal.EveryStartAdvances | runtime/cyrene-kernel/src/runtime_journal.rs:126-236 | over every run of starts and appends with writes cut off anywhere and any clock, each successful start is ahead of every record of its node completed before it, and later starts have larger epochs |
| RestartJournal.RefusalIsPermanent | runtime/cyrene-kernel/src/runtime_journal.rs:168-177 | once the file is refused, every later start fails |
| RestartJournal.ReplayFailureIsPermanent | runtime/cyrene-kernel/src/runtime_journal.rs:238-347 | replay fails after every further run of starts and appends exactly when the journal is refused or its finished lines hold a bad record or order |
| RestartJournal.TornTailRefusesSecondStart | runtime/cyrene-kernel/src/runtime_journal.rs:224-236 | after a torn tail the next start succeeds and all later ones fail |
| RestartJournal.FileRuntimeJournal.AppendPersisted | runtime/cyrene-kernel/src/runtime_journal.rs:224-236 | the file grows by what the write got to, as one step of a run, and success means all of it |
| RestartJournal.FileRuntimeJournal.Recover | runtime/cyrene-kernel/src/runtime_journal.rs:148-222 | a missing file recovers to the initial state, any other file as its contents say |
| RestartJournal.FileRuntimeJournal.BeginEpoch | runtime/cyrene-kernel/src/runtime_journal.rs:126-146 | succeeds exactly on a readable file with a complete write, and is one start step of a run |
| RestartJournal.FileRuntimeJournal.AppendEvent | runtime/cyrene-kernel/src/runtime_journal.rs:499-533 | an invalid event leaves the file alone, a valid one is appended |
| RestartJournal.FileRuntimeJournal.EventsForSource | runtime/cyrene-kernel/src/runtime_journal.rs:535-541 | the replay of one source in one namespace, with a missing file as an empty log |
| RestartJournal.FileRuntimeJournal.ReapStale | runtime/cyrene-kernel/src/runtime_journal.rs:418-445 | no problem exactly after a complete cleanup whose closing record was completely written |
| RestartJournal.FileRuntimeJournal.RecoverBeforeListeners | runtime/cyrene-kernel/src/runtime_journal.rs:402-465 | cleanups get only evidence of a recorded launch of a smaller epoch; success means every recorded process was observed, reaped and closed, and nothing else was observed |
| RestartJournal.FileRuntimeJournal.StartKernel | runtime/cyrene-kernel/src/main.rs:76-94 | a successful start on an untorn file leaves a journal whose recovery has no open process; on every outcome cleanups name only older recorded launches |
| RestartJournal.StartSeesNoValidProcess | runtime/cyrene-kernel/src/runtime_journal.rs:370-374 | right after a start no observed process is classified as valid |
| RestartJournal.NothingStaysOpen | runtime/cyrene-kernel/src/runtime_journal.rs:201-211 | the closing records of a successful reconciliation empty the process table |
| GatedLaunch.StepKeepsInv | adapters/execution/sandboxd/src/sys.rs:177-438 | every step of parent, child or an outside killer, failed calls included, keeps the protocol invariant and lowers the rank |
| GatedLaunch.RunsKeepInv | adapters/execution/sandboxd/src/sys.rs:177-438 | the invariant holds in every state of every interleaving |
| GatedLaunch.ExecIsIsolated | adapters/execution/sandboxd/src/runtime.rs:1144-1207 | user code runs only behind an attached HARD filter and, outside development mode, with limits applied and inside the cgroup |
| GatedLaunch.RejectionOutcome | adapters/execution/sandboxd/src/sys.rs:384-438 | after a rejection and ever after: user code ran only if the error pipe could not be read; a child is alive only then, after a failed gate write or after a failed wait of an abort; a final kill of its cgroup dooms it; after a failed attach or exec it is reaped exactly when the wait succeeded |
| GatedLaunch.SuccessMeansExec | adapters/execution/sandboxd/src/sys.rs:395-438 | success means exec, an outside kill, or a failure whose report was lost; without an outside kill it means exec exactly when no report was lost |
| GatedLaunch.KilledChildLooksLaunched | adapters/execution/sandboxd/src/sys.rs:395-438 | a run in which an outside kill makes release succeed without exec |
| GatedLaunch.SilentFailureLooksLaunched | adapters/execution/sandboxd/src/sys.rs:235-247 | a run in which a lost failure report makes release succeed without exec and without a kill |
| GatedLaunch.RejectedChildExecutes | adapters/execution/sandboxd/src/sys.rs:405-414 | a run in which the launch is rejected while its program runs |
| GatedLaunch.FailedGateLeavesChild | adapters/execution/sandboxd/src/sys.rs:396-403 | a run in which a failed gate write leaves a live child |
| GatedLaunch.FailedWaitLeavesChild | adapters/execution/sandboxd/src/sys.rs:384-393 | a run in which the wait of an abort fails and the killed child is still alive |
| GatedLaunch.NoMutualWait | adapters/execution/sandboxd/src/sys.rs:318-331 | parent and child never wait for each other |
| GatedLaunch.NeverStuck | adapters/execution/sandboxd/src/sys.rs:318-331 | in every reachable state before the end a step is possible that is no fault and needs no outside help |
| GatedLaunch.RunsEnd | adapters/execution/sandboxd/src/sys.rs:177-438 | every run has at most 25 steps, and a run that only a fault could continue has a parent that returned and a child that executes, is dead or was never forked |
| ChildTable.CgroupV2Runtime.Track | adapters/execution/sandboxd/src/runtime.rs:1239-1243 | a released child gets a row for its own incarnation and no tracked child is replaced |
| ChildTable.CgroupV2Runtime.WaitChildWithPidfd | adapters/execution/sandboxd/src/runtime.rs:1037-1066 | a child leaves the table by being reaped or by a failed `waitpid`, and a timeout or a missing pidfd leaves the table as it was |
| ChildTable.CgroupV2Runtime.WaitChild | adapters/execution/sandboxd/src/runtime.rs:993-1029 | a wait untracks the child exactly when it reaped it, once, or a `waitpid` failed; a failing first poll drops the row whatever the child does; a child still tracked afterwards had not exited |
| ChildTable.CgroupV2Runtime.Stop | adapters/execution/sandboxd/src/runtime.rs:1335-1455 | a complete report means an untracked child, reaped unless a `waitpid` failed, and, outside development mode, a cgroup that reads empty; the error is a failed kill of a populated cgroup |
| ConcurrentReaping.StepKeepsInv | adapters/execution/sandboxd/src/runtime.rs:993-1066 | every step of concurrent launches, waits and exits, failing ones included, keeps each unreaped child in one place: the table, one waiting thread's hands or those of its launch, unless it was given up |
| ConcurrentReaping.NoChildIsLost | adapters/execution/sandboxd/src/runtime.rs:993-1066 | that holds in every state of every run in which identifiers are reused only while no thread is inside a wait on them and no row is left for them |
| ConcurrentReaping.NothingLeaks | adapters/execution/sandboxd/src/runtime.rs:1037-1066 | without a failed `waitpid` and without a launch that gives up, no child is given up |
| ConcurrentReaping.AbsentRowMeansReaped | adapters/execution/sandboxd/src/runtime.rs:1335-1455 | in such a run a missing row means a reaped child, a thread that holds the row, a launch that has not entered it, or a child that was given up |
| ConcurrentReaping.WaitReapsItsOwnChild | adapters/execution/sandboxd/src/runtime.rs:993-1066 | in such a run a `waitpid` that reaps takes the child its own row was made for, or the child of its own launch, which nobody reaped before |
| ConcurrentReaping.ReapedAtMostOnce | adapters/execution/sandboxd/src/runtime.rs:993-1066 | in such a run no two waits reap for the same launch |
| ConcurrentReaping.WaitReapsForItsCaller | adapters/execution/sandboxd/src/runtime.rs:993-1028 | in every run, a wait that reaps takes the launch it was called for exactly when that launch was not reaped before |
| ConcurrentReaping.ReuseIsTheRisk | adapters/execution/sandboxd/src/runtime.rs:993-1066 | a fork that reuses an identifier can be followed by quiet steps, without faults, that lose its child or reap it by a foreign row exactly when some thread is inside a wait on the identifier or a row is left for it |
| ConcurrentReaping.LaunchHasNoRow | adapters/execution/sandboxd/src/runtime.rs:1181-1243 | a first launch whose child is alive, without a row and not waited on |
| ConcurrentReaping.AbandonedChildLives | adapters/execution/sandboxd/src/runtime.rs:1239-1243 | a run in which a launch that fails after its fork leaves a running child that nobody tracks |
| ConcurrentReaping.FailedWaitForgetsChild | adapters/execution/sandboxd/src/sys.rs:441-453 | a run in which a failed `waitpid` leaves an unreaped child that nobody tracks |
| ConcurrentReaping.ReuseLosesChild | adapters/execution/sandboxd/src/runtime.rs:1018-1029 | a run in which reuse between a `waitpid` and the removal of the row loses the new child |
| ConcurrentReaping.ReuseReapsStranger | adapters/execution/sandboxd/src/runtime.rs:1018-1066 | a run in which a stale row is put back over a new one and a wait by it reaps another launch's child |
| ConcurrentReaping.StaleRowReapsStranger | adapters/execution/sandboxd/src/runtime.rs:1018-1066 | a run without reuse during a wait in which a row of a reaped launch reaps the child of a launch that has not entered its row |
| ConcurrentReaping.CallerReapsStranger | adapters/execution/sandboxd/src/runtime.rs:999-1028 | a quiet run in which a call for a reaped launch reaps the next launch with the same identifier |
| ServiceGroup.ServiceOf | adapters/execution/sandboxd/src/config.rs:210-229 | the service group lies strictly below the mount and is the current group or its parent with the control leaf |
| ServiceGroup.DelegatedGroupPaths | adapters/execution/sandboxd/src/config.rs:193-230 | a membership file gives a service group strictly below the mount, without parent segments, next to the current group |
| ServiceGroup.DelegatedRoot | adapters/execution/sandboxd/src/config.rs:47-69 | the default worker root is a safely named child of the service group |
| ServiceGroup.MembershipRoundTrip | adapters/execution/sandboxd/src/config.rs:193-230 | reading back the membership line of a group is decided by that group alone |
| ServiceGroup.ServiceSurvivesMove | adapters/execution/sandboxd/src/config.rs:210-230 | before and after the move the same service group is found, exactly when its own name is not the leaf's |
| DelegatedMove.ValidateChildren | adapters/execution/sandboxd/src/config.rs:175-190 | passes exactly when the answer shows no child group but the worker root and the control leaf |
| DelegatedMove.CheckService | adapters/execution/sandboxd/src/config.rs:115-130 | only reads; in a quiet tree it passes exactly when the daemon is in the service group or its leaf, no other child exists and the worker root is empty |
| DelegatedMove.EnterControl | adapters/execution/sandboxd/src/config.rs:132-159 | makes no move, or exactly the guarded one; in a quiet tree it succeeds exactly when the daemon is alone |
| DelegatedMove.VerifyMove | adapters/execution/sandboxd/src/config.rs:161-170 | success means the last four answers showed the daemon alone in the leaf and an empty service group; it cannot fail in a settled quiet tree |
| DelegatedMove.Requested | adapters/execution/sandboxd/src/runtime.rs:790-798 | exactly the wanted controllers that are offered |
| DelegatedMove.EnableParentControllers | adapters/execution/sandboxd/src/runtime.rs:774-829 | in a quiet tree it succeeds exactly when the parent is the mount or has no process, and otherwise reports the populated parent |
| DelegatedMove.InitializeOwnedRoot | adapters/execution/sandboxd/src/runtime.rs:323-336 | creates the worker root first and then only enables controllers |
| DelegatedMove.PrepareGroups | adapters/execution/sandboxd/src/config.rs:108-171 | for every answer: at most one move, of this process into the control leaf right after the answers that allow it, and initialization right after the answers that show an empty service group |
| DelegatedMove.InitializeDelegatedOwnedRoot | adapters/execution/sandboxd/src/runtime.rs:307-321 | the same for any path, pid and mode; in a quiet tree it succeeds exactly on the admissible trees with the stated result, adds at most an empty leaf on failure, and never meets the populated-parent error |
| DelegatedMove.RerunIsIdle | adapters/execution/sandboxd/src/config.rs:83-172 | rerunning in a quiet tree changes nothing and succeeds exactly when the worker root is not the control leaf |
| DelegatedMove.RefusalRepeats | adapters/execution/sandboxd/src/config.rs:132-159 | a refused move is refused again: the leaf it may have created does not help |
| DelegatedMove.StartTwice | adapters/execution/sandboxd/src/runtime.rs:307-321 | two calls in a quiet tree: the second succeeds exactly when the first did and the worker root is not the control leaf, and leaves what the first left |
| DelegatedMove.RestartPrepares | adapters/execution/sandboxd/src/config.rs:83-172 | after the daemon's exit its successor in the service group is admissible exactly when its pid is not zero and the group is not named like the leaf right under the mount |
| DelegatedMove.RestartReplaces | adapters/execution/sandboxd/src/config.rs:83-172 | preparing again leaves the first tree with the successor in the daemon's place |
| DelegatedMove.StartAfterExit | adapters/execution/sandboxd/src/runtime.rs:307-321 | a call, the daemon's exit and its successor's call in a quiet tree: the second succeeds under exactly that condition, with that result |
| Reachability.ReachedIsLeast | tooling/release/product_contract_files.py:203-243 | the reached documents lie in every closed set that holds the roots |
| Reachability.VisitKeepsWorking | tooling/release/product_contract_files.py:203-243 | visiting one document keeps the worklist invariant, whichever is popped |
| Reachability.DoneIsReached | tooling/release/product_contract_files.py:203-243 | an empty worklist has visited exactly the reached documents, none of them refused |
| Reachability.StopsDoNotMatter | tooling/workspace-product-contract-bundle/build_v2_bundle.py:300-307 | not walking some documents makes no difference when no reached document refers to them |
| ContractDocuments.LocalReferences | tooling/release/product_contract_files.py:130-144 | the stack scan finds exactly the references anywhere in the document, and refuses exactly when one is not a non-empty text |
| ContractDocuments.HasOperation | tooling/release/product_contract_files.py:246-259 | the scan finds an operation identifier exactly when some object carries it |
| DocumentGraph.ScanOfTrees | tooling/workspace-product-contract-bundle/build_v2_bundle.py:214-246 | the scan of nodes that unfold to trees ends and finds exactly the texts under the key anywhere in these trees, however nodes are shared |
| DocumentGraph.ScanEndsExactly | tooling/release/product_contract_files.py:130-144 | the scan of a loaded document ends exactly when no node it meets contains itself, which is exactly when the document unfolds to a tree, and then finds exactly the texts of that tree |
| DocumentGraph.SelfHoldingListNeverEnds | tooling/release/product_contract_files.py:31-57 | a list that holds itself, as the loader may leave it, is scanned forever |
| ContractPaths.File | tooling/release/product_contract_files.py:222-224 | the part of a reference before its first fragment mark |
| ContractPaths.SameVersionRoot | tooling/release/product_contract_files.py:241-242 | a path below a document's version root has that version root |
| ContractPaths.SameContractRoot | tooling/workspace-product-contract-bundle/build_v2_bundle.py:231-238 | a path below a document's contract root has that contract root |
| ContractPaths.NormalizedHasNoDots | tooling/workspace-product-contract-bundle/build_v2_bundle.py:192-198 | an accepted path has no empty and no dot segment |
| ReleaseClosure.Target | tooling/release/product_contract_files.py:221-243 | a reference names a safe path below the version root, the same document, or an error |
| ReleaseClosure.ChainStaysInRoot | tooling/release/product_contract_files.py:203-243 | no chain of references leaves its version root or gains a dot segment |
| ReleaseClosure.QueueTargets | tooling/release/product_contract_files.py:221-243 | queues exactly the targets of the references, or refuses when one is forbidden |
| ReleaseClosure.Visit | tooling/release/product_contract_files.py:206-243 | accepts exactly the acceptable documents and queues their targets |
| ReleaseClosure.CollectReached | tooling/release/product_contract_files.py:203-243 | terminates, fails exactly when a reached document is refused, and otherwise holds the catalog and exactly the reached documents with their bytes |
| ReleaseClosure.CheckOperations | tooling/release/product_contract_files.py:245-263 | passes exactly when every operation is named in its own document |
| ReleaseClosure.CollectProductContractFiles | tooling/release/product_contract_files.py:147-265 | succeeds exactly on a readable catalog with no reached refusal and all operations named, with exactly the catalog and the reached documents |
| ReleaseClosure.CollectionIsLeast | tooling/release/product_contract_files.py:203-243 | the collected documents lie in every closed set that holds the operation documents |
| SharedClosure.Target | tooling/workspace-product-contract-bundle/build_v2_bundle.py:220-238 | a reference names a normalised path below the contract root, the same document, or an error |
| SharedClosure.ChainStaysInRoot | tooling/workspace-product-contract-bundle/build_v2_bundle.py:201-246 | no chain of references leaves its contract root, hence its repository, or gains a dot segment |
| SharedClosure.OwnersDoNotMix | tooling/workspace-product-contract-bundle/build_v2_bundle.py:300-307 | what is reached in one repository is reached from that repository's own operations |
| SharedClosure.WalkKeepsDiscovered | tooling/workspace-product-contract-bundle/build_v2_bundle.py:207-246 | walking one open document keeps the invariant of the shared map |
| SharedClosure.MapIsExact | tooling/workspace-product-contract-bundle/build_v2_bundle.py:300-307 | with nothing left to walk the map holds exactly the catalogs and the reached documents |
| SharedClosure.RootKeepsDiscovered | tooling/workspace-product-contract-bundle/build_v2_bundle.py:300-307 | the invariant survives the start of another operation, whatever is already collected |
| SharedClosure.Artifacts.Collect | tooling/workspace-product-contract-bundle/build_v2_bundle.py:239-243 | a new target is read, kept and queued; a known one changes nothing |
| SharedClosure.Artifacts.Walk | tooling/workspace-product-contract-bundle/build_v2_bundle.py:214-246 | walking a document adds exactly its targets to the map and the new ones to the queue, or fails exactly when a reference is forbidden or a new target cannot be opened |
| SharedClosure.Artifacts.AddReferenceClosure | tooling/workspace-product-contract-bundle/build_v2_bundle.py:201-246 | terminates with nothing left to walk, or fails because some reached document is refused |
| SharedClosure.Artifacts.AddOperation | tooling/workspace-product-contract-bundle/build_v2_bundle.py:302-307 | after each operation every collected document except the catalogs has all its targets collected |
| SharedClosure.Artifacts.AddOperations | tooling/workspace-product-contract-bundle/build_v2_bundle.py:300-307 | succeeds exactly when no reached document is refused, and then the map is the catalogs and exactly the reached documents |
| SharedClosure.CatalogsUnreferenced | tooling/workspace-product-contract-bundle/build_v2_bundle.py:286-307 | where no reached document refers to a catalog, that is the catalogs and everything reachable |
| OrderedStop.Host.AwaitGone | tooling/runtime/cyrene_runtime.py:769-770 | polling never passes its deadline, and gives up on a live component exactly there |
| OrderedStop.BudgetIsSlot | tooling/runtime/cyrene_runtime.py:765-767 | what is left of the budget, divided by the components left, is never less than the slot |
| OrderedStop.StopOne | tooling/runtime/cyrene_runtime.py:760-778 | one component is stopped within its slot, is killed exactly after its full grace time, and is given up exactly after the full forced wait |
| OrderedStop.Select | tooling/runtime/cyrene_runtime.py:752-752 | the live recorded components, dependents first |
| OrderedStop.StopNext | tooling/runtime/cyrene_runtime.py:759-778 | nothing is signalled before its recorded dependents are gone |
| OrderedStop.StopRecords | tooling/runtime/cyrene_runtime.py:746-779 | no component is signalled while a recorded dependent is alive, every kill follows the full grace time of an equal share, the total never passes the timeout, success means all recorded components are gone, and without outside reaping it succeeds exactly when none was there |
| LocalRuntime.Supervisor.RemoveOwnedSockets | tooling/runtime/cyrene_runtime.py:642-743 | unlinks an endpoint only after a look that showed the recorded identity; success means every look showed that or nothing; the ownership error means a mismatch; if nobody else binds meanwhile, only recorded sockets are removed and all of the components are gone |
| LocalRuntime.Supervisor.StopProcess | tooling/runtime/cyrene_runtime.py:545-565 | success means the child is reaped |
| LocalRuntime.Supervisor.WaitForSockets | tooling/runtime/cyrene_runtime.py:454-499 | readiness means a live process and, for every endpoint, one identity that every look at it showed, while sockets may change around every look |
| LocalRuntime.Supervisor.StartComponent | tooling/runtime/cyrene_runtime.py:568-639 | success means a live component with an observed identity of each endpoint; a failure leaves no process and, if nobody binds meanwhile, no sockets, or hands over a handle and, if the start time was readable, a record |
| LocalRuntime.Supervisor.Rollback | tooling/runtime/cyrene_runtime.py:1013-1030 | a clean end means no recorded process, an empty record file and, if nobody binds meanwhile, no sockets; an end that reports its records kept has written all of them; an end that could not write leaves the old file, the full one, or an empty one with nothing left to record; a clean end needs all other recorded components to be gone before |
| LocalRuntime.Supervisor.StartAll | tooling/runtime/cyrene_runtime.py:987-1030 | on a cleared host: success means all four components are recorded with their sockets; a failure leaves nothing behind, or a record file naming every live component but, when a start time or the last write was lost, possibly the one started last |
| LocalRuntime.Supervisor.Up | tooling/runtime/cyrene_runtime.py:894-1030 | a running runtime is left untouched: outside reaping aside, exactly when a recorded component is alive; remains that cannot be cleared stop the start, with only owned sockets removed if nobody else binds; otherwise as for StartAll |
| LocalRuntime.Supervisor.CaptureOwnedSockets | tooling/runtime/cyrene_runtime.py:661-704 | every identity that is read for a recorded component is confirmed, no saved identity changes, and only live owners gain one; if nobody else binds meanwhile, the identities read are those of all present sockets |
| LocalRuntime.Supervisor.Down | tooling/runtime/cyrene_runtime.py:1062-1084 | success means no recorded process, an empty record file and, if nobody binds meanwhile, no sockets; failure keeps every record or, when only the last write failed, leaves nothing to record; dependents are signalled first |
| ReleaseIndex.CheckRows | tooling/release/component_artifacts.py:1402-1428 | the validator finds nothing exactly when there are rows, all well formed, one for each component and target |
| ReleaseIndex.CheckMembers | tooling/release/component_artifacts.py:1470-1496 | nothing is found exactly when there are members, all distinct and each standing for an indexed row |
| ReleaseIndex.CheckGroups | tooling/release/component_artifacts.py:1449-1496 | nothing is found exactly when identifiers are unique, pins complete and members valid |
| ReleaseIndex.AddToGroup | tooling/release/component_artifacts.py:1554-1578 | accepts exactly the manifests whose pins agree with their group, and adds them to it alone |
| ReleaseIndex.AddManifest | tooling/release/component_artifacts.py:1530-1578 | enters a manifest exactly when it is valid, fits the index and is neither a duplicate nor in conflict |
| ReleaseIndex.RowsAreValid | tooling/release/component_artifacts.py:1402-1428 | the rows that are built pass the validator |
| ReleaseIndex.GroupsAreValid | tooling/release/component_artifacts.py:1449-1496 | the groups that are built pass the validator |
| ReleaseIndex.CreateIndex | tooling/release/component_artifacts.py:1509-1621 | succeeds exactly on acceptable manifests; the rows are those of the manifests, each group has exactly the members that name it with shared pins, and the validator finds nothing wrong |

## Left out

- The bytes behind JSON, YAML, SHA-256 and canonical JSON: records, documents and targets are values, digests are texts, and canonical JSON is taken as injective.
- The BPF verifier and the cgroup layout of the Linux kernel: admission is stated on the word that the code compares.
- The third contract builder, `build_bundle.py`: its worklist repeats the closure proof of the release collector.
- Field validation of product catalogs and manifests, size limits, and the sorting of returned maps: they would only add easy members.
- Removal of the cgroup directory and of transports after a failed launch: the launch path with a failing environment merge returns without it.
- File descriptors inherited across concurrent launches: each launch is modelled with its own pipes.
- Poisoned locks of the child table outside `launch`: a wait then answers nothing and a stop reports an incomplete cleanup.
- Inventory generations of the hardware adapter, network verification, attestation, argument parsing and logging: thin or bound to I/O.
- GatedLaunch.StepKeepsInv: `close` and the parent's `kill` of its own child do not fail, and writes to the two pipes are whole.
- LocalRuntime.Supervisor.Up: starts from a host on which every live component is recorded; crashes of the supervisor itself are not modelled.
- LocalRuntime.Supervisor.RemoveOwnedSockets: absence of the sockets afterwards, here and in `Rollback`, `Up` and `Down`, is promised only if nobody binds a socket during the removal, because the source checks an identity before it unlinks by name.
- LocalRuntime.Supervisor.WaitForSockets: the probes are arbitrary answers, the polling schedule is not modelled, and a socket may change right after the last look.
- OrderedStop.StopRecords: time passes only in sleeps, so delays of the supervisor's own computation are not modelled.
- DelegatedMove.InitializeDelegatedOwnedRoot: the quiet-tree clauses assume that no other process changes the tree between the calls.
- SharedClosure.Artifacts.AddOperations: owners are taken to have distinct repository names, so one map of readable files stands for all of them.
- ReleaseClosure.CollectProductContractFiles: takes the operations of a catalog that passed its field validation.
- ReleaseIndex.CreateIndex: the run identifier and attempt, the workflow, the attestation and the generation time are not inputs, so the rejections of an invalid run identity and of invalid provenance are missing; "exactly" is about the manifests.
- ContractDocuments.LocalReferences: takes the document as a tree, so it ends; `DocumentGraph.ScanEndsExactly` says for which loaded documents that is so. A refused `$ref` may end the scan of a cyclic document earlier.
- ContractDocuments.HasOperation: takes the document as a tree, in the same way.
- SharedClosure.Artifacts.Walk: takes the document as a tree, in the same way.
- SharedClosure.Artifacts.AddReferenceClosure: takes every document as a tree, in the same way.
- ReleaseClosure.CollectReached: takes every document as a tree, in the same way.
