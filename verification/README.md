# Verification of mars

`mars` is an OCI container runtime. Its work is a long sequence of system calls, and what makes it
right is mostly the order of those calls, the decisions between them and what is undone when one
fails. This project models the kernel objects the runtime relies on as small explicit states, models
the code that drives them, and proves what that code keeps over every input or every run.

`dafny verify dfyconfig.toml` checks the whole project.

## What is modelled

- **create.** `CreateProtocol` is the step relation of the parent, the intermediate and the container
  init: program counters in the order of the code, the two directions of the packet channel with end
  of file, cgroup membership, fifo, record and directory. Every step may fail and either child may be
  killed at any moment. `CreateSafety` proves the invariant phase by phase, `CreateOutcome` says what it
  means for runs. The order of the logged steps is that of the "Lifecycle" section of runtime.md and
  the "POSIX-platform Hooks" section of config.md of the OCI Runtime Specification 1.0.2.
- **start and status.** `StartGate` has any number of concurrent `start` calls at one fifo, the init on
  the other side, the death of either, reuse of the pid, and the status derived from the three places
  it is read from. `CreateToStart` ties its beginning to what a successful create leaves. `ProcStat` is
  the line the start time is taken from, as text and, with `Utf8`, as bytes.
- **exec.** `ExecWorld`: processes, the namespaces they are in, whether they may join others, and paths
  looked up in the mount namespace of the moment. `ExecPlacement`: the calls of `exec` with what they open
  and join, and the child that waits for its cgroup.
- **kill --all and teardown.** `KillAll`: a cgroup whose members fork and exit beside the runtime.
- **supervise.** `Supervision`: a step relation with a signal mask, pending signals, dying and adopted
  children, and the two nested loops, each execution of which is proved to be one of its runs.
- **Privileges.** The five capability sets, user, group and groups, keepcaps, no_new_privs and the filter load as
  one object changed by system calls with the rules of capabilities(7).
- **Namespaces**, **CgroupTree**, **OverlayOptions**/**OverlayCut**/**OverlayMount**/**OverlayAnnotations**, **Resolve**,
  **Calendar**/**Timestamps**/**Text**, **Telemetry**, **Hooks**: one module per component, with loops where
  the source loops and functions where it computes.

## What turned out not to hold

- `create` can hang, in two ways and no other (`RunsHangExactly`). When the intermediate dies between
  forking the init and sending InitPid, without a Failed packet, the init keeps the child end open and
  waits for CgroupApplied while the parent waits for InitPid (`CreateCanHang`). And when the leaf, or a
  cgroup above it, is frozen, the init stops as soon as it is attached and the parent waits for InitReady
  (`CreateCanStall`). `Cgroup::create` does not look whether a leaf it finds is frozen, and the bundle's
  own `unified` resources may write cgroup.freeze, in the leaf or above. `CreateReturns` has the condition under
  which `create` always comes back.
- `teardown` signals one listing without freezing, so a process forked meanwhile survives it
  (`SnapshotMissesAFork`); `kill --all` freezes and does not have the gap. If freezing times out or
  thawing is refused, `kill --all` leaves the cgroup asked to freeze; and a pause that was asked for but
  has not taken effect is undone by it. A cgroup.events that cannot be read counts as not frozen, so a
  failed read makes `kill --all` thaw a paused cgroup, or take a thaw for done.
- A rollback removes a leaf that was there before, and kills the processes in it
  (`RollbackReachesBeyond`).
- An init that died but was not reaped counts as alive, and a live container counts as Stopped while the
  command name of its init is not UTF-8, as when the kernel cuts a longer name inside a character
  (`StoppedExactly`, `NameIsReadExactly`, `LiveContainerSeemsStopped`); `delete` believes it.
- A container that died is found alive again if its pid goes to a process with the same start time, which
  counts clock ticks and may repeat (`FoundAliveAgain`).
- Stamps sort by time only up to the year 9999 (`OrderKeptExactly`).
- An overlay option string of exactly 4096 bytes is passed on, and loses its last byte: the kernel ends
  the page with a zero (`FullPageIsCut`; docs/03-overlayfs.md has the cut at 4096 bytes).
- Joining a time namespace moves the intermediate's clock, and its `join` span need not nest then
  (`NestingNeedsOneClock`).
- The path of a joined time namespace is looked up inside a joined mount namespace
  (`OnlyTimeIsOpenedInside`). `exec` never joins the time namespace (`ExecReachesTheHost`), and with
  `--ignore-paused` its child stops in the frozen cgroup (`NobodyIsLeftWaiting`).
- Writing the permitted set before the effective one fails only for a container that stays root
  (`SwappedWritesFail`, `SwapIsHarmlessAfterLeavingRoot`); docs/04-lifecycle.md gives it without that distinction.
  docs/05-hardening.md sets no_new_privs before the capabilities are dropped; the code sets it after
  them, and the model follows the code.
- Layers with an empty directory name do not print and parse back (`OptionsRoundTrip` has the exact
  condition).
- Removing a leaf cgroup also removes a parent that existed before but has nothing else in it
  (`DestroyAfterCreate`).

## Model

| member | source | states |
|---|---|---|
| CreateOutcome.NoUnexpectedMessage | src/container/mod.rs:291-320 | in no run does any of the three processes reach an arm for an unexpected message |
| CreateOutcome.PacketsReachTheirReader | src/sync.rs:35-66 | the two children never wait on the shared end together, each packet is the one its reader expects, and no packet of the init is in the channel before the parent took InitPid |
| CreateOutcome.StepsFollowTheScript | src/container/init.rs:138-289 | attach, prestart and createRuntime hooks, cgroup unshare, mounts, createContainer hooks, pivot_root, ready, start hooks and execve occur in that order in every run, as a prefix |
| CreateOutcome.EarlierStepsCameFirst | src/container/mod.rs:303-320 | a step is taken only after every earlier step of that order succeeded |
| CreateOutcome.PromisedOrder | src/container/init.rs:138-289 | event by event: attach before the hooks, prestart before createRuntime before anything inside, cgroup unshare and mounts before createContainer hooks, these before pivot_root, that before ready, ready before start hooks before execve |
| CreateOutcome.MappingsComeFirst | src/container/mod.rs:274-289 | the init is forked inside its namespaces; with a user namespace nobody is root in it before the mappings were written, and no init is forked before somebody is |
| CreateOutcome.FifoIsThere | src/container/mod.rs:187 | the exec fifo is there from the end of the step that makes it until rollback removes it, and not before |
| CreateOutcome.RunsAreShort | src/container/mod.rs:239-255 | no run of create is longer than 51 steps, whatever fails |
| CreateOutcome.StepAdvances | src/container/mod.rs:261-346 | every step of any process moves some program counter forward in program order |
| CreateOutcome.RunsHangExactly | src/container/init.rs:54-68 | a run stops before create returned if and only if the intermediate died silently after forking the init, or the init sits attached in a frozen leaf |
| CreateOutcome.CreateCanHang | src/container/init.rs:56-59 | for every configuration a run with one signal, and no other fault, that ends with the orphaned init |
| CreateOutcome.CreateCanStall | src/cgroup/v2.rs:62-64 | for every bundle and tree that leave the leaf frozen a run without any fault that ends with the parent waiting for InitReady |
| CreateOutcome.FrozenLeafNeverSucceeds | src/container/mod.rs:303-317 | on such a leaf no run at all returns Ok |
| CreateOutcome.CreateReturns | src/cgroup/v2.rs:230-234 | if the intermediate is not killed and its failure report gets through, a stopped run has returned if and only if it is not stalled, and always when neither the leaf or a cgroup above it is found frozen nor the bundle's own resources freeze one |
| CreateOutcome.SuccessKeepsItsPromise | src/container/mod.rs:322-346 | after Ok the init has announced itself, is in its cgroup while it lives, is recorded with pid and start time, the pid file is written and the exec fifo is there |
| CreateOutcome.SuccessIsComplete | src/container/init.rs:138-280 | after Ok every step up to the announcement has been made, mounts, pivot_root and the cgroup namespace exactly if they are asked for |
| CreateToStart.CreatedIsReady | src/container/mod.rs:322-361 | a successful create leaves what start and status begin with: a linked fifo, a matching record and no frozen cgroup, and so a container reported Created |
| CreateOutcome.FailureLeavesNothing | src/container/mod.rs:77-83 | after an error the directory, fifo and record remain exactly where their removal failed, and the leaf where that failed or it was there and had not been taken yet |
| CreateOutcome.RollbackTouchesExactly | src/container/mod.rs:147-169 | after an error a leaf that existed before is as it was if and only if it had not been taken yet, or its removal failed and no other process in it was killed |
| CreateOutcome.RollbackIsCleanExactly | src/container/mod.rs:534-537 | no failure of a configuration can touch more than create made if and only if no leaf is there before the call |
| CreateOutcome.FailureEndsEveryChild | src/container/mod.rs:534-553 | after an error the intermediate is gone, and the init is gone exactly if it is no member of the leaf; it is left there only when the members could not be listed or did not leave in time |
| CreateOutcome.SmoothCreateSucceeds | src/container/mod.rs:86-172 | without failing steps and kills create comes back and succeeds if and only if the leaf is neither found frozen, itself or from above, nor frozen by the bundle's resources, and otherwise stalls |
| CreateSafety.ParentKeepsInv | src/container/mod.rs:261-346 | every step of the parent, rollback included, keeps the invariant on queues, resources and order |
| CreateSafety.InitKeepsInv | src/container/init.rs:138-291 | so does every step of the init |
| CreateSafety.StepKeepsInv | src/container/init.rs:28-69 | so does every step of anyone, and every kill from outside |
| CreateSafety.RunKeepsInv | src/container/mod.rs:175-258 | the invariant holds in every reachable state |
| StartGate.AtMostOneRelease | src/container/fifo.rs:51-86 | of any number of concurrent starts at most one succeeds, and it read the only byte |
| StartGate.ProgramWaitsForStart | src/container/fifo.rs:39-49 | start hooks and the program run only after a reader opened the fifo and the byte was written |
| StartGate.RunningMeansReleased | src/state.rs:124-138 | an observed Running, its three reads taken at different moments, means a start consumed the byte |
| StartGate.ObservedExactly | src/state.rs:124-138 | which status is reported, from what happened in the run: Stopped, Paused, Created and Running each if and only if, by liveness at the first read, the last freezing or thawing at the second, and a successful start by the third |
| StartGate.StatusIsObserved | src/state.rs:124-138 | read at one moment it is the status of that state |
| StartGate.UnlinkedExactly | src/container/fifo.rs:82-86 | the fifo is gone if and only if a call of start has succeeded |
| StartGate.StartSawCreated | src/container/mod.rs:348-352 | a call of start that has come past its checks has observed Created |
| StartGate.UnlinkIsFinal | src/container/fifo.rs:82-86 | the fifo never comes back |
| StartGate.FoundAliveAgain | src/state.rs:117-122 | the pid of a reaped container is taken for it again if and only if it was given, meanwhile, to a process with the recorded start time |
| StartGate.DeathIsFinal | src/state.rs:117-122 | without such a repetition it is never found alive, whoever gets the pid |
| StartGate.StatusNeverGoesBack | src/state.rs:124-138 | after Running never Created; after a Stopped that was reported with a readable line only Stopped, unless pid and start time were both repeated; for any two observations |
| StartGate.StoppedExactly | src/state.rs:117-127 | Stopped is reported if and only if the reaped pid has no holder with the recorded start time or its line in /proc is not UTF-8; with a readable line it means that the init died and was reaped |
| StartGate.NamedByTheProgram | src/state.rs:217-222 | the line cannot become unreadable before the program is executed |
| StartGate.LiveContainerSeemsStopped | src/state.rs:217-222 | every run that has executed the program goes on, with one unreadable name, to a live container reported Stopped, and with the next name back |
| StartGate.ProgramCanBeExecuted | src/container/fifo.rs:39-86 | such runs there are, with one start and no fault; the start succeeds and the container is reported Running |
| StartGate.RunKeepsInv | src/container/mod.rs:348-361 | the invariant of the gate holds in every state of every run |
| ProcStat.StartTimeOfAnyCommand | src/state.rs:224-227 | field 22 of a line of text is recovered for every command name, and None exactly when it overflows u64 |
| ProcStat.ReadExactly | src/state.rs:217-222 | the start time is found in the kernel's bytes if and only if the command name is UTF-8 and the number fits |
| ProcStat.NameIsReadExactly | src/state.rs:219 | for a program with a UTF-8 name, cut to 15 bytes by the kernel, if and only if it is no longer or its first 15 bytes end with a character |
| ProcStat.CutNameIsNotRead | src/state.rs:219 | a name of ten Cyrillic letters that is not |
| Utf8.DecodeConcat | src/state.rs:219 | two stretches of bytes are UTF-8 together if and only if both are, when the second does not begin inside a character |
| Utf8.CutTextExactly | src/state.rs:219 | a cut text is UTF-8 if and only if the cut is not inside a character |
| Utf8.DecodeEncode | src/state.rs:219 | every text comes back from its UTF-8 bytes, whatever the length of its characters |
| ProcStat.WordsOfSpaced | src/state.rs:226 | splitting the printed fields at white space gives the fields back |
| Text.ParseDecimal | src/state.rs:226 | reading a printed number gives the number back |
| ProcStat.LastIndex | src/state.rs:225 | the index found holds the character and nothing after it does |
| ExecPlacement.Runtime.Collect | src/container/exec.rs:216-240 | the loop opens the links of exactly the namespaces that differ, in the fixed order, and stops at the first that cannot be opened |
| ExecPlacement.Runtime.Exec | src/container/exec.rs:97-161 | whatever fails but the read of the bundle, without which it goes on, the calls made are a beginning of the script, and all of it if and only if it ends well |
| ExecWorld.JoinsDiffering | src/container/exec.rs:19-27 | each differing namespace but time is joined once, in the fixed order, mount last |
| ExecWorld.JoinsInOrder | src/container/exec.rs:21-29 | the user namespace is joined first if at all, the pid namespace before the mount namespace, and altogether in the order in which create joins |
| ExecWorld.OpenedOnTheHostExactly | src/container/exec.rs:166-174 | in any sequence of calls a file is the host's if and only if no move into another mount namespace came before its open |
| ExecWorld.LateLinkCannotBeJoined | src/container/exec.rs:216-240 | in any sequence of calls a namespace whose link is opened after such a move cannot be joined |
| ExecPlacement.ScriptPerformsExactly | src/container/exec.rs:97-154 | the calls of exec can all be made if and only if the runtime has CAP_SYS_ADMIN, the container's user namespace is among those to join, or nothing is to join; and then the child is placed through the host's file, and the pid file written if one is asked for |
| ExecPlacement.ScriptPerforms | src/container/exec.rs:97-154 | for such a runtime every call finds the handle and the capability it needs |
| ExecPlacement.AbleParentGoesOn | src/container/exec.rs:97-154 | in every run of such a runtime the parent's next step takes it one call further |
| ExecPlacement.OpensExactly | src/container/exec.rs:89-131 | what is opened on the host: always the links to join, cgroup.procs and the runtime's tasks, and the rest exactly where the options or the bundle give it |
| ExecPlacement.ExecReachesTheHost | src/container/exec.rs:138-154 | in every run the pid is written to the host's cgroup.procs and pid file, the forked child is in the container's namespace of every kind but time, and a parent that got through has placed and told it and written the pid file if one was asked for |
| ExecPlacement.PlacedBeforeExecution | src/container/exec.rs:138-149 | execve comes only after the child was written into the cgroup, and never if the parent ended without telling it |
| ExecPlacement.ParentKeepsToItsScript | src/container/exec.rs:97-161 | in every run what the parent did is a prefix of its script |
| ExecPlacement.HostPathsComeFirst | src/container/exec.rs:103-131 | every host path is opened before any setns, every join of the plan is made, in order, before the fork |
| ExecPlacement.StepShrinks | src/container/exec.rs:97-161 | every step of either process uses up a bound, so every run ends |
| ExecPlacement.NobodyIsLeftWaiting | src/container/exec.rs:134-149 | where neither process can go on the child has executed after being told, has exited or was never forked, unless it was placed in a frozen cgroup |
| KillAll.Group.IsFrozen | src/cgroup/v2.rs:121-131 | a read that fails counts as not frozen |
| KillAll.Group.Freeze | src/cgroup/v2.rs:105-119 | after success of freezing the cgroup is frozen whatever reads failed; after success of thawing it is thawed unless the read that ended the wait failed; the request stands exactly if the write was accepted |
| KillAll.FailedReadTellsNothing | src/cgroup/v2.rs:105-131 | after a failed read both outcomes of a thaw are possible |
| KillAll.Group.SignalAll | src/container/mod.rs:429-434 | after success every listed member has the signal; in a frozen cgroup nobody else has appeared |
| KillAll.Group.KillAll | src/container/mod.rs:422-441 | Ok means every member at the listing has the signal and, for SIGKILL, every member now (unless a thaw was under way), whatever reads of cgroup.events failed; a paused cgroup stays paused if and only if the first read did not fail; any other is asked to thaw, also after a failed signal, except when freezing timed out or thawing was refused, and is thawed then unless the last read failed |
| KillAll.Group.Teardown | src/container/mod.rs:534-537 | one unfrozen listing misses nobody but processes forked after it, so everybody has the signal in the end if and only if no such process is there |
| KillAll.MeanwhileComposes | src/container/mod.rs:429-441 | what the members do between two calls is closed under repetition, so one stretch stands for any number of events |
| KillAll.OnlyShrinks | src/container/mod.rs:413-441 | after kill --all with SIGKILL the cgroup gains no member |
| KillAll.SnapshotMissesAFork | src/container/mod.rs:534-537 | a concrete fork between listing and signal that leaves an unsignalled process |
| Supervision.ExitIsNeverLost | src/container/signal.rs:50-72 | from there on a dead child leaves SIGCHLD pending whenever the outer loop waits; each forwarded signal is sent once or still pending; a return tells how the reaped init ended: its exit status, or 128 and the signal |
| Supervision.CodeIsAmbiguousExactly | src/container/signal.rs:61-64 | one code stands for two ways to end if and only if one is an exit with 128 and the number of the signal that is the other |
| Supervision.DeathIsReported | src/container/signal.rs:50-72 | once the init is dead the supervisor returns its exit status, or 128 and the signal, whichever signals and zombies come first |
| Supervision.SupervisorIsNeverStuck | src/container/signal.rs:50-72 | with a dead init there is always a call that returns |
| Supervision.ExitIsLostExactly | src/container/signal.rs:17-27 | whatever the order of mask and deaths, a supervisor that waits with the init dead has no SIGCHLD to wake it if and only if no child died while the mask was in place |
| Supervision.LostStaysLost | src/container/signal.rs:50-57 | such an exit stays lost until another child dies |
| Supervision.MaskedFirstLosesNothing | src/container/mod.rs:372-394 | in the order of run, mask before fork, the supervisor begins where no exit is lost |
| Supervision.Host.Supervise | src/container/signal.rs:50-72 | every execution of the loops is a run; the code is below 256 and is the reaped init's exit status, or 128 and the signal; and while it waits for good the init has not died |
| Supervision.Host.Drain | src/container/signal.rs:59-70 | the inner loop ends in a return or back at the outer wait |
| Privileges.Task.DropBounding | src/container/capabilities.rs:37-52 | the bounding set is cut down to the spec's if and only if nothing has to go or CAP_SETPCAP is effective |
| Privileges.Task.DropPrivileges | src/container/process.rs:44-78 | exactly when it succeeds, and that leaving root keeps the permitted set and empties the effective and ambient ones |
| Privileges.Task.Apply | src/container/capabilities.rs:54-87 | succeeds if and only if the kernel's subset conditions hold, and then the four sets are the spec's |
| Privileges.Task.Secure | src/container/init.rs:235-278 | the whole sequence: exactly when it succeeds, the final credentials, under which credentials the one filter is loaded, and every credential on the way within the kernel's rules |
| Privileges.SecuredFields | src/container/init.rs:254-268 | field by field what that leaves, for every bundle with a process: its user, group, groups and no_new_privs, keepcaps off after leaving root, its sets where it has any, and otherwise what the change of user does to those there were |
| Privileges.SecuredWithoutSets | src/container/init.rs:243-278 | without a capabilities object it succeeds if and only if CAP_SETGID, CAP_SETUID or no change of user, and what the filter needs are there; without a process it changes nothing |
| Privileges.RootIsSecuredExactly | src/container/init.rs:254-268 | started as root it succeeds if and only if the spec meets the subset preconditions; the final sets are the spec's |
| Privileges.SwappedWritesFail | src/container/capabilities.rs:54-87 | exactly which cases the opposite order of the two writes would lose |
| Privileges.SwapIsHarmlessAfterLeavingRoot | src/container/capabilities.rs:54-87 | after leaving root the opposite order loses none |
| Privileges.KeepCapsIsNeeded | src/container/process.rs:61-75 | without keepcaps leaving root works only for an empty permitted set |
| Privileges.BoundingMustComeFirst | src/container/init.rs:255-259 | after the user id change the bounding set can only stay as it is |
| Privileges.LateFilterNeedsNoNewPrivs | src/container/init.rs:270-278 | the late load is possible if and only if no_new_privs is set or CAP_SYS_ADMIN was kept |
| Calendar.CivilInvertsDayCount | src/state.rs:243-265 | for every input the date is valid and the naive day count takes it back to the input |
| Calendar.CivilRoundTrip | src/state.rs:243-265 | every valid date comes back from its own second count |
| Calendar.CivilOrder | src/state.rs:243-265 | one instant is earlier than another if and only if its date is, field by field |
| Calendar.DateOfEraCorrect | src/state.rs:248-258 | the closed form of one 400-year era agrees with the day count |
| Calendar.YearOfEraBounds | src/state.rs:250-252 | the year found contains the day |
| Timestamps.StampOrder | src/state.rs:229-241 | up to the year 9999 byte order of two stamps is exactly the order of seconds and nanoseconds |
| Timestamps.FiveDigitYearSortsFirst | src/state.rs:237-238 | one second later the order is lost |
| Timestamps.OrderKeptExactly | src/state.rs:237-240 | a bound on the seconds keeps the order if and only if it is at most the start of the year 10000 |
| Timestamps.StampReadsBack | src/state.rs:237-240 | up to the year 9999 a stamp has the layout of RFC 3339, section 5.6, and the date, time and nanoseconds are read back from it |
| Timestamps.YearReached | src/state.rs:243-258 | the year is reached exactly at its first second |
| Timestamps.SortIsSorted | src/state.rs:212 | the sort orders by the stamp |
| Timestamps.SortIsStable | src/state.rs:212 | for every stamp the containers with it keep their order |
| Timestamps.List | src/state.rs:191-215 | it fails if and only if the directory or an entry cannot be read, at the first such entry; otherwise the listing has exactly the entries that load, in the order of their stamps and, for each stamp, in the order of the directory |
| Timestamps.LoadedExactly | src/state.rs:200-210 | every container comes up as often as an entry with its record |
| Timestamps.LoadedInOrder | src/state.rs:200-210 | and in the order of the directory |
| Timestamps.ListingIsChronological | src/state.rs:212 | so it is in the order of creation |
| Text.PaddedFieldOrder | src/state.rs:237-240 | zero-padded fields compare like their numbers, then like what follows |
| OverlayOptions.SplitLowerdirLoop | src/rootfs/overlay.rs:74-93 | the loop computes the splitting function, escapes included |
| OverlayOptions.ChainedReplacesAreOnePass | src/rootfs/overlay.rs:105 | the two chained replaces equal escaping in one pass |
| OverlayOptions.LowerRoundTrip | src/rootfs/overlay.rs:74-113 | escaped, joined and split again, a list comes back without its empty parts |
| OverlayOptions.OptionsFailOnCommas | src/rootfs/overlay.rs:98-103 | printing fails if and only if some path contains a comma |
| OverlayOptions.OptionsRoundTrip | src/rootfs/overlay.rs:108-125 | printed layers read back exactly if and only if no directory is empty |
| OverlayOptions.OptionsInFull | src/rootfs/overlay.rs:115-124 | the option string in full, with the three keys overlayfs documents |
| OverlayOptions.OptionsAreInjective | src/rootfs/overlay.rs:108-125 | different layers print differently |
| OverlayMount.MatchingComponents | src/rootfs/overlay.rs:236-240 | the count is the length of the greatest common prefix |
| OverlayMount.CommonParent | src/rootfs/overlay.rs:227-251 | the base is the greatest directory above every layer's parent, and None exactly when there is none |
| OverlayMount.RelativeLayers | src/rootfs/overlay.rs:253-276 | relative to such a base the layers exist, name the same directories, and print strictly shorter |
| OverlayCut.CutLosesTheLast | src/rootfs/overlay.rs:278-294 | wherever a printed string is cut, the last directory is lost or read as a proper prefix |
| OverlayMount.PageDecides | src/rootfs/overlay.rs:278-294 | read from one page, the printed layers come back if and only if the string is shorter than the page |
| OverlayMount.LayersBelowBase | src/rootfs/overlay.rs:284-293 | so it is for the layers relative to a base, which print shorter than the absolute ones |
| OverlayMount.FullPageIsCut | src/rootfs/overlay.rs:281-282 | an input of exactly 4096 bytes, which is passed on and mounts another directory |
| OverlayMount.AbsoluteLayers | src/rootfs/overlay.rs:281-282 | absolute layers are found by the kernel from any directory if and only if their string is shorter than the page |
| OverlayMount.MountAt | src/rootfs/overlay.rs:278-294 | a mount has the options of the absolute layers if these fit and otherwise of the layers relative to the deepest base, at most 4096 bytes, and the kernel finds exactly the requested layers if and only if there are fewer; each error exactly when |
| OverlayMount.PathRoundTrip | src/rootfs/overlay.rs:95-96 | a printed path parses to itself |
| OverlayAnnotations.AnnotationsAreWellFormed | src/rootfs/overlay.rs:31-72 | whatever the annotations, the layers are absolute and there is a lower one |
| OverlayAnnotations.LowerAnnotationRoundTrip | src/rootfs/overlay.rs:31-62 | layers of absolute directories come back from the three annotations, the lower ones escaped, whatever else is annotated |
| Namespaces.NamespaceTypes | src/bundle/validate.rs:111-129 | accepted if and only if no type is listed twice, with exactly the listed types |
| Namespaces.MakeLayout | src/namespace.rs:26-56 | fails if and only if a path to join is missing; otherwise the flags are those to create and the joins are sorted |
| Namespaces.RequestIsCarriedOut | src/namespace.rs:30-46 | an entry with an absent or empty path is created, one with a path is joined there, and nothing else is joined |
| Namespaces.FlagsAreTheKernels | src/namespace.rs:66-77 | the bits are those of the kernel's constants |
| Namespaces.SortJoinsOrders | src/namespace.rs:48-53 | the joins follow JOIN_ORDER with time after everything, and none is lost |
| Namespaces.Isolate | src/container/init.rs:28-45 | the loops make the planned setns and unshare calls in the planned order |
| Namespaces.EachRequestOnce | src/container/mod.rs:111-113 | of a validated list each requested type is joined once or unshared once, and nothing else is |
| Namespaces.RootlessExactly | src/container/init.rs:28-45 | a runtime without privileges can carry out a layout if and only if there is nothing to do, a user namespace is joined, or one is created and nothing is joined |
| Namespaces.MaskingLosesTime | src/namespace.rs:62-64 | removing the cgroup bit on raw bits keeps every other; a mask of named bits would lose time |
| Namespaces.OnlyTimeIsOpenedInside | src/container/init.rs:122-136 | a path is looked up inside a joined mount namespace exactly for time, when both are joined |
| CgroupTree.Hierarchy.Delegate | src/cgroup/v2.rs:240-263 | adds exactly what is wanted and offered; fails exactly in a busy cgroup that lacks some; writes only if something is missing |
| CgroupTree.Hierarchy.Descend | src/cgroup/v2.rs:53-67 | one level: exactly when it succeeds, the tree after success and after failure, and that a level with its due is not written |
| CgroupTree.Hierarchy.Walk | src/cgroup/v2.rs:53-72 | the loop succeeds if and only if every level can be passed, in terms of the tree it started with |
| CgroupTree.LevelOfWalk | src/cgroup/v2.rs:53-67 | whether a level can be passed, and whether it needs a write, is the same in the tree of the walk and in the one it started with |
| CgroupTree.WalkedIsAfter | src/cgroup/v2.rs:53-72 | the levels of the loop, done one after the other, make the tree described cgroup by cgroup |
| CgroupTree.Hierarchy.Create | src/cgroup/v2.rs:47-78 | succeeds if and only if every level can be passed; the exact tree after success and after failure; no write where nothing is missing |
| CgroupTree.Hierarchy.Destroy | src/cgroup/v2.rs:141-164 | removes the leaf if and only if it can be, and then an empty parent below the mount point |
| CgroupTree.OfferedOnTheWay | src/cgroup/v2.rs:53-60 | at every level the wanted controllers of the root are on offer |
| CgroupTree.LeafIsOfferedTheWanted | src/cgroup/v2.rs:47-78 | the leaf is offered every wanted controller the root has |
| CgroupTree.LimitsHaveTheirControllers | src/cgroup/v2.rs:175-228 | every file a limit is written to belongs to a wanted controller |
| CgroupTree.WalkOnlyAdds | src/cgroup/v2.rs:47-78 | no controller is disabled anywhere; the leaf's own subtree_control and everything off the path are untouched |
| CgroupTree.SecondWalkWritesNothing | src/cgroup/v2.rs:253-255 | a second create finds every level passable and done |
| CgroupTree.SecondWalkChangesNothing | src/cgroup/v2.rs:47-78 | and leaves the tree as it is |
| CgroupTree.DestroyAfterCreate | src/cgroup/v2.rs:141-164 | destroying a new leaf removes it and exactly the parent that is then empty |
| Resolve.Resolve | src/rootfs/mounts.rs:64-80 | the result is the rootfs followed by what a stack machine ends with that ignores pops at the bottom |
| Resolve.ResolvedIsFixed | src/rootfs/mounts.rs:64-80 | resolving the result's own suffix changes nothing |
| Resolve.CannotClimbOut | src/rootfs/mounts.rs:70-74 | any number of leading parent components lead nowhere |
| Resolve.ParentUndoesName | src/rootfs/mounts.rs:69-74 | a name followed by a parent component cancels anywhere |
| Resolve.RootAndCurrentAreIgnored | src/rootfs/mounts.rs:75 | a root or a current-directory component means nothing anywhere |
| Resolve.WalkInParts | src/rootfs/mounts.rs:64-80 | resolving in two parts is resolving at once |
| Hooks.Run | src/container/hooks.rs:50-82 | in the four phases before the program runs it fails if and only if a hook fails, the error names the first, and nothing after it has run; poststart and poststop never fail and run every hook |
| Telemetry.Recorder.Begin | src/telemetry.rs:45-48 | closes the open phase and opens the next |
| Telemetry.Recorder.End | src/telemetry.rs:50-59 | the open phase becomes the recorder's last span |
| Telemetry.Recorder.Absorb | src/telemetry.rs:61-69 | the other clock's spans are added, shifted and prefixed |
| Telemetry.Recorder.Take | src/telemetry.rs:75-78 | everything recorded is handed over and nothing is left |
| Telemetry.AbsorbedIsInside | src/telemetry.rs:61-73 | spans of a clock started later lie, after flooring, between the offset and the moment of reading |
| Telemetry.OffsetsDoNotOvershoot | src/telemetry.rs:71-73 | the sum of two floored times is at most the floored whole |
| Telemetry.MicrosCount | src/telemetry.rs:71-73 | one unit of a reading is a microsecond |
| Telemetry.ChildSpansNest | src/container/mod.rs:226-341 | on one clock, spans of the intermediate lie within fork and wait.initpid, spans of the init within init |
| Telemetry.NestingNeedsOneClock | src/container/init.rs:122-136 | the intermediate's join span is sure to nest if and only if the namespaces it joins do not move its clock |
| Telemetry.TraceHandshake | src/container/mod.rs:271-341 | the calls of the handshake lose no span, keep the parent's own in sequence, and, on one clock, nest the children's |
| Telemetry.ChildReports | src/container/init.rs:146-280 | what a child sends are the spans between its readings, each begin taking two, and they lie between its start and its report |
| Telemetry.RootEnd | src/telemetry.rs:109 | the root span ends at the latest end of all |

## Left out

- Raw system calls, mounting, devices, masking, sysctl, the pty and the seccomp filter's contents: kept only as steps that succeed or fail at their place.
- OTLP rendering and sending, logging, command line and JSON: packets are values and are assumed to fit into the 16 KiB a message may take.
- Time: polls and sleeps are replaced by their effect or by giving up; hooks and kernel steps return. `start` may block for ever when the init dies before it opens the fifo, so nothing is claimed about its end.
- Order between poststart and startContainer hooks: the code fixes none. Concurrent `create` calls on one id are not modelled either.
- create: nobody but the bundle's resources freezes or thaws the leaf or a cgroup above it during a run, and other processes in a leaf that was there neither come nor go by themselves. A directory of the container's name without a record is taken over and removed like a new one. Of what create starts, only the init is in the leaf, and what hooks leave behind is not followed; a killed member is gone once the listing is read. The steps from the console to the fork are one step, and those from identity to the security steps are one.
- create and exec are state machines of several processes rather than one method each, because their statements are about interleavings.
- KillAll.Group.KillAll: nobody else thaws the cgroup or moves a process into it meanwhile, and a process keeps one name for ever.
- KillAll.Group.Teardown: the wait until the cgroup is empty, which sends no further signal.
- Supervision.Host.Supervise: what happens meanwhile is a list of batches, so the method ends when the list does; that it then still waits is stated. Errors of waitpid other than ECHILD do not occur.
- ExecPlacement.Runtime.Exec: what the bundle, process file and task list contain is not followed, and the container's cgroup is frozen or not for the whole run.
- OverlayMount.FullPageIsCut: the kernel's limits on names and on the number of layers.
- Privileges: the three user ids change together, as for a caller with CAP_SETUID, and no securebits are set.
- CgroupTree.Hierarchy.Delegate: a busy cgroup refuses every new controller. The kernel lets it take cpu, cpuset and pids when neither memory nor io is involved and no child is populated, and makes it the root of a threaded subtree in which the leaf can then hold no ordinary process; threaded subtrees are not modelled.
- StartGate.StoppedExactly: a read of /proc fails only for want of the process or for its name, and a read of cgroup.events succeeds.
- Telemetry.ChildSpansNest: assumes that no time namespace is joined.
- CgroupTree.Hierarchy.Destroy: the retries while the leaf is busy.
- OverlayMount.MountAt: the mount call and the chdir back to the root after it; the layer checks of `prepare`.
- Paths: no symbolic links, repeated slashes or `.` components in layers; a byte is a character.
- Hooks.Run: a hook is its outcome; spawning, feeding and timing out one hook are not modelled.
- Timestamps.Stamp: a clock before 1970 reads as 1970, so instants are natural numbers.
- `update`, `features`, `events`, devices, user namespace mappings and most validators: one branch or one translation each.
