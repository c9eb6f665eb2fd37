# initng, verified

A Dafny model of the core of initng, an init system that starts services in
parallel, in the order of their dependencies.  It follows the C core, the daemon
service type, and both ends of the control socket protocol (ngcs), and proves
what they keep over whole runs.

| modules | what they model |
|---|---|
| `ServiceState`, `Interrupt`, `Engine` | state marks under nested locks, the interrupt list, the `handle` procedure with arbitrary hooks |
| `StartService`, `RestartBarrier`, `ServiceDb` | recursive start of dependencies, the batch restart barrier |
| `DependDeep`, `DependCache` | the bounded dependency search, the resumable dependency checks |
| `Daemon`, `DaemonStates`, `DaemonLaws`, `DaemonService`, `RespawnRecord` | the daemon's states, processes, launches and respawns |
| `Alarm`, `OutputBuffer` | alarms and the main loop's sleep, the output buffer |
| `Signals`, `SignalNesting` | the signal table, and recorders that interrupt each other |
| `DataStore`, `IntrusiveList` | service variables with a fallback chain, the intrusive list macros |
| `NgcsWire`, `NgcsCodec`, `NgcsPython` | the value encoding, in C and in Python |
| `NgcsStream`, `NgcsReceive`, `NgcsPairing` | framing and partial writes, both receivers, requests and answers |
| `NgcsChannel`, `NgcsClosing`, `NgcsFreedMemory` | the life of the channels of a connection, how they are closed, and when freed ones are used |
| `Basics`, `Entries` | shared definitions |

State that the program changes in place is a class here, and each of its methods
is proved against a function on values (`View() == F(old(View()))`); the results
about runs are lemmas about those functions.  User code (hooks, alarm handlers,
channel callbacks, command handlers, modules' vetoes) is a parameter that ranges
over everything it may do.  The clock, the kernel's answers to read, write, kill
and fork, and the contents of `/proc` and pid files are parameters too.

Where the code does something else than its comments say, the model follows the
code.  What came out:

- `initng_list_add_tail` links the new entry's back link to itself, so it never
  makes a list of which that entry is a part (`IntrusiveList.AddTail`,
  `IntrusiveList.NoEntryPrecedesItself`).
- The deep dependency search misses dependencies: one three steps away, if nine
  services that need nothing come before it, and on a chain those more than eleven
  steps away (`DependDeep.ThreeStepsBehindDeadEnds`,
  `DependDeep.ChainFoundUpToEleven`; exactly when: `DependDeep.ExactIffCovered`).
- A positive start check does not mean that all needed services are up at that
  moment, because of the cached position
  (`DependCache.YesMeansUpIffCachedAreUp`, `DependCache.YesWithADependencyDown`).
  Start and stop check share that position, and only a yes resets it; so one that
  is cut short lets the other pass services it never looked at
  (`DependCache.StopLeavesItsPosition`).
- A signal handler that is interrupted by another between its test of a slot and
  its store loses a signal, already with two kinds (`SignalNesting.TwoKindsCanBeLost`,
  `SignalNesting.OnlyOneKindIsSafe`).  Without that, the ten slots are safe for five
  kinds of signal and not for six, while six are registered
  (`SignalNesting.TenSlotsHoldFiveKinds`).
- With `pid_of`, a service can end up with two active daemon processes on its
  list (`Daemon.NextKeepsOne`, `Daemon.TwoDaemons`).
- A daemon that is stopped before its start was handled, or while it waits to
  respawn, and is started again while it waits to stop, is RUNNING with no process
  (`DaemonStates.NextKeepsBacked`, `DaemonStates.RunningWithNothing`).
- The daemon's states for a nonexistent binary, a failed stop and failed stop
  dependencies are never entered, and the one for an exceeded respawn rate is
  always overwritten in the same call (`Daemon.LaunchesAreEarned`).
- `ngcs_pack` answers 1, not an error, for an item of negative length, and of a
  long it writes only half, leaving four bytes of the buffer as they were
  (`NgcsCodec.Pack`, `NgcsCodec.LongComesBackIff`); `ngcs_unpack` ignores up to seven
  trailing bytes (`NgcsWire.ParsesExactly`, `NgcsCodec.Unpack`).
- The Python client does not come back from a structure in which an entry has length
  minus eight (`NgcsPython.MinusEightHangs`); the C side refuses it.
- A channel's close callback that closes or deletes a channel registered after its
  own can make the closing connection use freed memory
  (`NgcsFreedMemory.SafeIffNotAfter`); so does `ngcs_chan_close_now` without a
  connection, if the callback deletes the channel
  (`NgcsFreedMemory.CloseNowTouchesFreedIff`).
- A channel that is deleted after it was closed by its owner and before the peer has
  answered never has its close callback called, and keeps its data callback
  (`NgcsClosing.DeleteCutsIff`, `NgcsClosing.CallbackLost`).
- An interrupted read of a service's output is not tried again, although the loop
  condition asks for it (`OutputBuffer.ReadsAreATurn`).

## Model

| member | source | states |
|---|---|---|
| `ServiceState.CommitKeeps` | src/main/common/state.c:88-139 | a commit keeps the table's invariant: nothing unlocked is pending, the interrupt list has no duplicates, unsettled services are on it |
| `ServiceState.DoKeepsInv` | src/main/common/state.c:43-139 | lock, unlock and mark each keep that invariant, for any service and any set of services being handled |
| `ServiceState.DoAllKeepsInv` | src/main/common/state.c:43-139 | so does every sequence of calls |
| `ServiceState.MarkUnlockedCommits` | src/main/common/state.c:43-76 | a mark to a different state on an unlocked service is accepted, committed and queued at once |
| `ServiceState.CommitIsQueuedOnce` | src/main/common/state.c:43-139 | a call changes no other service; a state moves only with the lock open, to the marked or pending state, resetting the alarm, and then the service is on the list once |
| `ServiceState.LockedRun` | src/main/common/state.c:43-86 | while locked, the current state is frozen and the pending state is the first differing mark; later marks are refused |
| `ServiceState.OutermostUnlockCommitsFirstMark` | src/main/common/state.c:78-139 | lock, any calls that keep the lock, outermost unlock: the service moves exactly to the first differing mark, or stays |
| `Engine.Engine.Lock` | src/main/common/state.c:78-86 | refines the lock of `ServiceState` in place |
| `Engine.Engine.Unlock` | src/main/common/state.c:88-139 | refines unlock with its commit, and returns whether the state changed |
| `Engine.Engine.Mark` | src/main/common/state.c:43-76 | refines mark, and returns whether it was accepted |
| `Interrupt.AnnounceKeeps` | src/main/interrupt/handle.c:34-104 | an event sent under the lock, with any hooks: if the unlock committed, the service is queued again and the invariant holds with nobody being handled; the list only grows at the front |
| `Interrupt.HandleKeeps` | src/main/interrupt/handle.c:34-104 | for all hooks: when `handle` returns, the service has had the init step of its present state or is queued again; nobody else is worse off |
| `Interrupt.HandleRuns` | src/main/interrupt/handle.c:34-104 | `handle` does exactly what the hooks of its history do, run one after the other, and nothing else to the service |
| `Interrupt.HooksRunInSteps` | src/main/interrupt/handle.c:34-104 | that history, for all hooks: the state event always and first; the rough event exactly if nothing was committed before and the rough state differs from the last; the follow-up exactly if the rough state is then failed, up or down; the init hook exactly if nothing was committed and there is one; each at most once and in this order |
| `Interrupt.OnlyReachedSettles` | src/main/interrupt/handle.c:34-104 | a call settles a service only by reaching the init step, never by an event |
| `Interrupt.InitHookMoves` | src/main/interrupt/handle.c:98-100 | with silent events and an init hook that marks a state: the unlocked service ends in that state if and only if it has an init hook or was there already |
| `Interrupt.EventMoves` | src/main/interrupt/handle.c:43-50 | with a state event that marks another state, the service ends there and the init hook does not run |
| `Interrupt.DrainIsFifo` | src/main/interrupt/interrupt.c:34-59 | the drain keeps the invariant and handles the services queued at its start in queue order, before any other |
| `Interrupt.QuietDrainEmpties` | src/main/interrupt/interrupt.c:34-59 | with hooks that change nothing, a drain empties the list and settles every service |
| `Interrupt.EveryRunSettles` | src/main/interrupt/interrupt.c:34-59 | in every reachable state: no unlocked service is pending, no duplicates on the list, and a service not on it has had the init step of its state |
| `Interrupt.TurnRuns` | src/main/interrupt/interrupt.c:42-51 | each turn of the drain takes the oldest service off the list and runs the hooks of the history above |
| `Interrupt.MarkIsCarriedOut` | src/main/interrupt/interrupt.c:34-59 | after every run, a mark of an unlocked service and a drain with silent hooks leave it in that state, the list empty and every service settled |
| `Engine.Engine.HandleOne` | src/main/interrupt/handle.c:34-104 | `handle`, in place, refines `Interrupt.Handle`; the calls it makes are the history of `Interrupt.HooksRun`, recorded at each call |
| `Engine.Engine.HandleOldest` | src/main/interrupt/interrupt.c:42-51 | one step of the drain: unlink the oldest and handle it |
| `Engine.Engine.DrainAll` | src/main/interrupt/interrupt.c:42-51 | the drain loop refines `Interrupt.Drain`, keeps the invariant and reports whether anything was queued |
| `Engine.Engine.Interrupts` | src/main/interrupt/interrupt.c:34-59 | the drain and, exactly if it handled something, the calls of the states' interrupt handlers; the invariant is kept |
| `StartService.StartedClosed` | src/main/depend/start_deps.c:31-99 | a started set contains everything its members reach through stopped services |
| `StartService.StartSpec` | src/main/handler/start_service.c:34-112 | a start past the gate starts the service and only services it reaches, each after its dependencies; it succeeds exactly if no required service is missing |
| `StartService.WalkSpec` | src/main/depend/start_deps.c:31-99 | the same for the loop over dependencies, stopping at the first missing required one |
| `StartService.StartReachesExactly` | src/main/handler/start_service.c:34-112 | on every acyclic graph: exactly the reachable stopped services are started, once each, dependencies first, queued in that order; services with a missing requirement become REQ_NOT_FOUND; no other service changes |
| `StartService.StartsRight` | src/main/handler/start_service.c:34-112 | with the states written out, on every acyclic graph of unlocked services: each reached stopped service without a missing requirement is START_MARKED and starting, each with one is REQ_NOT_FOUND and failed; the service started is RUNNING if and only if it waited to stop and misses nothing |
| `StartService.StartRefused` | src/main/handler/start_service.c:34-112 | a start that the gate stops, or of a service that is neither stopped nor stopping, changes nothing; it succeeds exactly if the gate is open and the service has not failed |
| `StartService.EdgeIff` | src/main/depend/start_deps.c:31-99 | which services a start goes on to: exactly the registered ones that an entry requires or needs with no missing requirement before it |
| `StartService.BlockIff` | src/main/depend/start_deps.c:31-99 | a service is blocked if and only if it requires one that is not registered |
| `ServiceDb.Db.StartService` | src/main/handler/start_service.c:34-112 | the recursive start, in place, refines `StartService.Start`; for unlocked services it leaves the states of `StartService.StartsRight` |
| `ServiceDb.Db.StartDaemon` | src/modules/daemon/initng_daemon.c:541-560 | the daemon's start call, with its answer |
| `ServiceDb.Db.StartDeps` | src/main/depend/start_deps.c:31-99 | the loop over dependencies, in place, with the mark for a missing requirement |
| `RestartBarrier.StartHarmless` | src/main/handler/start_service.c:34-112 | whatever the graph and the locks, starting a service changes no field of a flagged one and sends none into stopping |
| `RestartBarrier.BarrierPass` | src/main/handler/restart_restarting.c:33-59 | all or nothing: with a flagged service stopping the pass changes nothing; otherwise exactly the flagged stopped services lose their flag and no flagged one is left stopped |
| `RestartBarrier.HeldBackIff` | src/main/handler/restart_restarting.c:33-59 | the batch is held back if and only if some flagged service is stopping |
| `RestartBarrier.PassStarts` | src/main/handler/restart_restarting.c:33-59 | on an unlocked acyclic system that is starting, with no flagged service stopping: each flagged stopped service is started, START_MARKED if it misses no requirement and else REQ_NOT_FOUND |
| `RestartBarrier.AllStarted` | src/main/handler/restart_restarting.c:33-59 | the same for the whole database at once |
| `RestartBarrier.StopsRight` | src/main/handler/stop_service.c:33-83 | a stop takes exactly a typed service that is up or starting: to STOP_MARKED, or from waiting for its dependencies straight to STOPPED |
| `RestartBarrier.RestartsRight` | src/main/handler/restart_service.c:33-62 | a restart flags and stops exactly a typed service that is up, and leaves any other alone |
| `RestartBarrier.RoughsAsDeclared` | src/modules/daemon/initng_daemon.c:283-535 | the rough state of each of the daemon's states |
| `RestartBarrier.DaemonStaysIdle` | src/modules/daemon/initng_daemon.c:541-1094 | every step of a daemon but a start command that passes the gate keeps a stopped, stopping or failed daemon so |
| `RestartBarrier.BatchLeftOnlyThroughBarrier` | src/main/handler/restart_restarting.c:33-59 | no step but a barrier pass with nothing stopping takes a service out of the batch |
| `RestartBarrier.RestartWaitsForWholeBatch` | src/main/handler/restart_restarting.c:33-59 | in every run, a service leaves the restart batch only through a pass made while it was in it and no flagged service was stopping |
| `ServiceDb.Db.AnyFlaggedStopping` | src/main/handler/restart_restarting.c:33-59 | the first loop finds a flagged stopping service exactly when there is one |
| `ServiceDb.Db.RestartIfDown` | src/main/handler/restart_restarting.c:33-59 | one turn of the second loop: a flagged stopped service loses the flag and is started, any other is left alone |
| `ServiceDb.Db.RunBarrier` | src/main/handler/restart_restarting.c:33-59 | both loops over the database |
| `ServiceDb.Db.RestartAll` | src/main/handler/restart_restarting.c:33-59 | the pass, in place, refines `RestartBarrier.RestartRestarting`, and starts what `RestartBarrier.PassStarts` says |
| `DependDeep.FindDepOn` | src/main/depend/dep_on.c:30-57 | the search finds a declared dependency exactly when there is one |
| `DependDeep.FindDepend` | src/main/depend/depend.c:34-64 | the direct dependency test, with the modules' part |
| `DependDeep.DependIff` | src/main/depend/depend.c:34-64 | a direct dependency is another service that an entry requires, needs or uses, or that a module says so of |
| `DependDeep.SearchIsBounded` | src/main/depend/depend_deep.c:38-77 | on every graph, cyclic or not: at most ten loops over the database and ten calls per service besides the first |
| `DependDeep.DeepIsSound` | src/main/depend/depend_deep.c:45-77 | a yes means a real dependency path, whatever the counter |
| `DependDeep.ShortPathsAreFound` | src/main/depend/depend_deep.c:45-77 | paths of one or two steps are always found |
| `DependDeep.CallsDecide` | src/main/depend/depend_deep.c:45-77 | on every graph: the search says yes if and only if the goal is a direct dependency of a service that the goal-free traversal calls |
| `DependDeep.ExactIffCovered` | src/main/depend/depend_deep.c:38-77 | the search from a service is exact for every goal if and only if the services called cover the dependencies of all services it reaches |
| `DependDeep.ExactWithinBudget` | src/main/depend/depend_deep.c:45-77 | if the traversal ends with the counter at ten or below, yes if and only if there is a path, for every goal |
| `DependDeep.ThreeStepsBehindDeadEnds` | src/main/depend/depend_deep.c:45-77 | for every number of dead ends: a dependency three steps away behind them is found if and only if they are at most eight |
| `DependDeep.ChainFoundUpToEleven` | src/main/depend/depend_deep.c:45-77 | on every chain the search says yes exactly up to eleven steps |
| `DependDeep.TwelveStepsAreMissed` | src/main/depend/depend_deep.c:45-77 | a concrete dependency twelve steps away that is missed |
| `DependDeep.DependDeep2` | src/main/depend/depend_deep.c:45-77 | the recursion with its shared counter refines the search function, counter included |
| `DependDeep.DependsOn` | src/main/depend/depend_deep.c:38-43 | the entry: yes exactly for the direct dependencies of the services called; sound, and complete for one and two steps |
| `DependCache.CallIsYes` | src/main/depend/start_dep_met.c:32-158 | a check says yes exactly when nothing past the cached position halts it and no module vetoes; otherwise the position does not go back |
| `DependCache.DepsAreAll` | src/main/depend/start_dep_met.c:32-158 | the check counts exactly the entries that require, need or use a service |
| `DependCache.ResumedAgreesWithPlain` | src/main/depend/start_dep_met.c:32-158 | with the passed items still passing, the resumed check and a check from the start agree |
| `DependCache.CacheIsEarned` | src/main/depend/start_dep_met.c:32-158 | while checks fail, every item the position has moved over, from wherever it stood, has passed one of them |
| `DependCache.YesMeansEachPassed` | src/main/depend/start_dep_met.c:32-158 | at the first yes every item from where the position stood at first has passed at least one of the checks |
| `DependCache.YesMeansSeenUp` | src/main/depend/start_dep_met.c:32-158 | at the first yes, with any state changes in between, every required or needed service from the first position on was seen up |
| `DependCache.YesMeansAllUp` | src/main/depend/start_dep_met.c:32-158 | from position zero, and if none of those seen up went down since, all are up |
| `DependCache.YesMeansUpIffCachedAreUp` | src/main/depend/start_dep_met.c:32-158 | a yes means all are up now if and only if those below the cached position are |
| `DependCache.YesWithADependencyDown` | src/main/depend/start_dep_met.c:32-158 | a concrete yes with a needed service down |
| `DependCache.YesMeansDependentsSettled` | src/main/depend/stop_dep_met.c:32-120 | at the first yes of the stop check every direct dependent from the first position on was seen down, failed or waiting |
| `DependCache.StopLeavesItsPosition` | src/main/depend/stop_dep_met.c:44-96 | a stop check cut short, after which the start check says yes with a needed service down that it never looked at |
| `DependCache.StartVerdict` | src/main/depend/start_dep_met.c:32-158 | for all entries and states: the start check says FAIL if and only if the first item past the cached position that is not satisfied is failed or required and not registered; YES if and only if every item past it is satisfied and no module vetoes |
| `DependCache.StartActs` | src/main/depend/start_dep_met.c:32-158 | it starts a service if and only if that is the first item not satisfied and stopped, and marks REQ_NOT_FOUND if and only if that item is required and not registered |
| `DependCache.StopVerdict` | src/main/depend/stop_dep_met.c:32-120 | the stop check never fails, and says YES if and only if every direct dependent past the position is down, failed or waiting to start, and no module vetoes |
| `DependCache.Service.Consider` | src/main/depend/start_dep_met.c:32-158 | the verdict and the side effect for one dependency entry |
| `DependCache.Service.StartDepMet` | src/main/depend/start_dep_met.c:32-158 | the start check, in place: verdict, new position and side effect |
| `DependCache.Service.StopDepMet` | src/main/depend/stop_dep_met.c:32-120 | the stop check, in place: verdict and new position |
| `Daemon.Find` | src/main/process_db/find.c:34-46 | the first active process of a type, and none before it |
| `Daemon.LaunchHasCause` | src/modules/daemon/initng_daemon.c:717-851 | a daemon process comes about only when START_DEPS_MET is handled; that state is entered only from the wait, by a yes in a starting system |
| `Daemon.InitCause` | src/modules/daemon/initng_daemon.c:765-901 | no other init hook launches a daemon process or respawns; this one adds at most one and leaves the state |
| `Daemon.DiedCause` | src/modules/daemon/initng_daemon.c:1028-1094 | a death launches nothing and enters neither START_DEPS_MET nor one of the states never entered; which state it enters is in `DaemonLaws` |
| `Daemon.AlarmCause` | src/modules/daemon/initng_daemon.c:917-1020 | neither does an alarm, nor does it grant a respawn |
| `Daemon.NextKeepsOne` | src/modules/daemon/initng_daemon.c:765-809 | from at most one active process of a type, every step keeps that, except exactly the one that adopts a process found by name beside one still listed |
| `Daemon.TwoDaemons` | src/modules/daemon/initng_daemon.c:765-875 | with `pid_of` there is a run from a fresh service that lists two active daemon processes |
| `Daemon.LaunchesAreEarned` | src/modules/daemon/initng_daemon.c:717-1094 | in every run: launches are no more than entries of START_DEPS_MET, which are as many as positive checks; four states are never seen; without `pid_of` no two processes of a type are active |
| `Daemon.DiedRespawns` | src/modules/daemon/initng_daemon.c:1367-1416 | a death grants at most one respawn, recorded with its time, and none sooner than the rate after the last |
| `Daemon.RespawnsAreSpaced` | src/modules/daemon/initng_daemon.c:1367-1416 | in every run on a clock that does not go back, successive respawns are at least the respawn rate apart |
| `DaemonStates.NextKeepsBacked` | src/modules/daemon/initng_daemon.c:541-560 | every step keeps an active process behind a running daemon, except exactly a start that takes back a stop for which there was no process |
| `DaemonStates.RunningHasProcess` | src/modules/daemon/initng_daemon.c:541-1094 | in every run without such a start, a running daemon has an active process |
| `DaemonStates.RunningWithNothing` | src/modules/daemon/initng_daemon.c:541-580 | for every configuration a run from a fresh service that ends RUNNING with no process |
| `DaemonStates.NeverStuckWaiting` | src/modules/daemon/initng_daemon.c:906-1020 | in every run, a state that waits for time to pass has its entry still to be handled or an alarm set |
| `DaemonLaws.EntersStartMarked` | src/modules/daemon/initng_daemon.c:541-560 | over all events: START_MARKED is entered if and only if a start is let through with its requirements there, from a stopped or stopping state that does not wait for dependencies, or the respawn pause ends so |
| `DaemonLaws.EntersWaitStartDep` | src/modules/daemon/initng_daemon.c:695-704 | the wait for dependencies begins if and only if START_MARKED is handled |
| `DaemonLaws.EntersStartDepsMet` | src/modules/daemon/initng_daemon.c:717-751 | it ends in START_DEPS_MET if and only if the check says yes in a starting system |
| `DaemonLaws.EntersLaunch` | src/modules/daemon/initng_daemon.c:765-851 | LAUNCH is entered if and only if a forking daemon without a pid source was launched |
| `DaemonLaws.EntersWaitPidFile` | src/modules/daemon/initng_daemon.c:765-851 | the wait for the pid begins if and only if a daemon with a pid source was launched |
| `DaemonLaws.EntersRunning` | src/modules/daemon/initng_daemon.c:541-1094 | the five ways into RUNNING, and no other |
| `DaemonLaws.EntersStopMarked` | src/modules/daemon/initng_daemon.c:563-580 | STOP_MARKED is entered if and only if a stop finds the daemon running or on its way up past or before the wait |
| `DaemonLaws.EntersWaitStopDep` | src/modules/daemon/initng_daemon.c:705-715 | the wait to stop begins if and only if STOP_MARKED is handled |
| `DaemonLaws.EntersStopDepsMet` | src/modules/daemon/initng_daemon.c:753-763 | it ends if and only if the stop check says yes |
| `DaemonLaws.EntersTerm` | src/modules/daemon/initng_daemon.c:853-901 | TERM is entered if and only if STOP_DEPS_MET is handled with a process that has a pid and that kill finds |
| `DaemonLaws.EntersKill` | src/modules/daemon/initng_daemon.c:991-1001 | KILL is entered if and only if the alarm of TERM goes off |
| `DaemonLaws.EntersStopped` | src/modules/daemon/initng_daemon.c:541-1094 | the five ways into STOPPED, and no other |
| `DaemonLaws.EntersWaitResp` | src/modules/daemon/initng_daemon.c:1367-1416 | a respawn is granted if and only if a running daemon with respawn dies and the rate allows it |
| `DaemonLaws.EntersFailRcode` | src/modules/daemon/initng_daemon.c:1056-1093 | FAIL_START_RCODE is entered if and only if a daemon process dies with a code other than zero, not by SIGSEGV, without a respawn, and with nothing to excuse it |
| `DaemonLaws.EntersFailSignal` | src/modules/daemon/initng_daemon.c:1056-1068 | FAIL_START_SIGNAL is entered if and only if one dies by SIGSEGV without a respawn |
| `DaemonLaws.EntersFailLaunch` | src/modules/daemon/initng_daemon.c:765-851 | the launch failure is entered if and only if a launch was due and refused or taken by nobody |
| `DaemonLaws.EntersFailPidTimeout` | src/modules/daemon/initng_daemon.c:917-946 | the pid timeout is entered if and only if the alarm goes off more than sixty seconds after the wait began |
| `DaemonLaws.EntersUpCheckFailed` | src/modules/daemon/initng_daemon.c:1421-1479 | the failed up check is entered if and only if a live pid is found in time and there is no process to take it |
| `DaemonLaws.EntersStartDepsFailed` | src/modules/daemon/initng_daemon.c:717-751 | failed start dependencies are entered if and only if the check says never |
| `DaemonLaws.EntersReqNotFound` | src/modules/daemon/initng_daemon.c:541-560 | the missing requirement is entered if and only if a start is let through without its requirements |
| `DaemonLaws.FailRcodeHasCause` | src/modules/daemon/initng_daemon.c:1028-1094 | in every run a daemon failed by its exit code has had such a death |
| `DaemonLaws.FailSignalHasCause` | src/modules/daemon/initng_daemon.c:1028-1094 | in every run a daemon failed by a signal has had a death by SIGSEGV |
| `DaemonLaws.CleanExitIsNoFailure` | src/modules/daemon/initng_daemon.c:1028-1094 | a death with signal and code zero takes no daemon from a state that is no failure to one that is |
| `DaemonLaws.AlarmIsSet` | src/modules/daemon/initng_daemon.c:906-1007 | how long each timed state waits, in seconds, and that entering a state resets the alarm |
| `DaemonLaws.DefaultRate` | src/modules/daemon/initng_daemon.c:1367-1416 | ten seconds between respawns unless configured |
| `DaemonLaws.DeathFrees` | src/modules/daemon/initng_daemon.c:1028-1094 | a process that died is freed and no other changes; but the fork that leaves the daemon behind stays, with the pid once that is known |
| `DaemonLaws.LaunchAdds` | src/modules/daemon/initng_daemon.c:765-851 | which process a launch adds to the list |
| `DaemonLaws.TimeoutFrees` | src/modules/daemon/initng_daemon.c:917-946 | after a pid timeout no active daemon process is left |
| `DaemonLaws.LaunchesAreCounted` | src/modules/daemon/initng_daemon.c:765-851 | the count of launches goes up exactly when a process is launched or adopted |
| `DaemonLaws.StopActs` | src/modules/daemon/initng_daemon.c:853-901 | what STOP_DEPS_MET does to the processes: a kill process, or a signal that frees the daemon if kill no longer finds it |
| `DaemonLaws.KillActs` | src/modules/daemon/initng_daemon.c:991-1020 | each timeout of a stop frees the process exactly if it has no pid or is gone; the second one is repeated every two seconds |
| `DaemonLaws.PidIsTakenOver` | src/modules/daemon/initng_daemon.c:917-946 | the pid is looked for every second, and taken over exactly for a forked daemon with a listed process |
| `DaemonLaws.OthersKeepProcs` | src/main/process_db/free.c:30-40 | no other event changes the processes; clearing takes away exactly the freed ones and leaves each type its first |
| `RespawnRecord.CheckRespawn` | src/modules/daemon/initng_daemon.c:1367-1416 | on the service's variables: what the store records before and after is the last respawn of the daemon model; no other variable changes |
| `DaemonService.Service.GetProcess` | src/main/process_db/find.c:34-46 | the loop refines `Daemon.Find` |
| `DaemonService.Service.ExecuteLaunch` | src/main/execute/launch.c:34-98 | a launch is refused while a process of the type is active; one that nobody takes is freed |
| `DaemonService.Service.KillProcess` | src/modules/daemon/initng_daemon.c:1102-1140 | a process without a usable pid, or gone, is freed; a live one stays |
| `DaemonService.Service.StartDepsAreMet` | src/modules/daemon/initng_daemon.c:765-851 | adopt, launch or fail, and the state that follows each |
| `DaemonService.Service.StopDepsAreMet` | src/modules/daemon/initng_daemon.c:853-901 | stop at once, by a kill process, or by a signal |
| `DaemonService.Service.Handle` | src/modules/daemon/initng_daemon.c:695-1007 | the init hooks of all states, in place |
| `DaemonService.Service.CheckDeps` | src/modules/daemon/initng_daemon.c:717-763 | the two waiting states' interrupt handlers |
| `DaemonService.Service.StartDaemon` | src/modules/daemon/initng_daemon.c:541-560 | start, with the way back from waiting to stop |
| `DaemonService.Service.StopDaemon` | src/modules/daemon/initng_daemon.c:563-580 | stop, with the way back from waiting to start |
| `DaemonService.Service.FetchPid` | src/modules/daemon/initng_daemon.c:1421-1479 | the pid is taken over only for a forking daemon with a listed process; its failures |
| `DaemonService.Service.PidTimeout` | src/modules/daemon/initng_daemon.c:917-946 | one more second, or the failure after sixty that kills and frees the process |
| `DaemonService.Service.Timeout` | src/modules/daemon/initng_daemon.c:917-1020 | the alarm handlers of all states, in place |
| `DaemonService.Service.Respawn` | src/modules/daemon/initng_daemon.c:1367-1416 | grants or refuses a respawn by the rate |
| `DaemonService.Service.MarkExit` | src/modules/daemon/initng_daemon.c:1056-1093 | the state after an exit that is not followed by a respawn, in place; `DaemonLaws.EntersFailRcode`, `DaemonLaws.EntersFailSignal` and `DaemonLaws.EntersStopped` say which |
| `DaemonService.Service.Killed` | src/modules/daemon/initng_daemon.c:1028-1094 | the death of a process, in place, refines the step of which `DaemonLaws` says the state and the processes |
| `Alarm.DoKeeps` | include/initng/handler.h:37 | setting or unsetting an alarm keeps the cached time a bound on all alarms visited so far |
| `Alarm.VisitKeeps` | src/main/handler/run_alarm.c:47-71 | so does each turn of the pass, whatever the handler does to any service |
| `Alarm.PassTracks` | src/main/handler/run_alarm.c:37-72 | after a pass the cached time is nonzero if any alarm is set and bounds them all; with handlers that set future alarms, nothing is due |
| `Alarm.PassCalls` | src/main/handler/run_alarm.c:37-72 | a pass calls handlers in order and none twice; if handlers keep to their own service, exactly those that were due |
| `Alarm.CalledExactlyWhenDue` | src/main/handler/run_alarm.c:47-71 | an alarm set for some seconds ahead is called by the check after the clock is read if and only if that many seconds have passed |
| `Alarm.DrainedInSteps` | src/main/frontend/main.c:153-209 | the alarms set in a drain are set one after the other |
| `Alarm.UnsetIsNotCalled` | src/main/handler/run_alarm.c:47-71 | the handler of a service whose state changed since, or of a new one, is not called, however late it is |
| `Alarm.NextTracks` | src/main/handler/run_alarm.c:37-72 | every step of the system keeps the bound |
| `Alarm.NextLeavesNoneDue` | src/main/frontend/main.c:161-162 | the main loop's check leaves nothing due, and nothing becomes due until time passes or an alarm is set for now |
| `Alarm.AlwaysTracked` | src/main/handler/run_alarm.c:37-72 | in every run with no alarm set in the past, the cached time is nonzero when an alarm is set and bounds every alarm |
| `Alarm.QuietUntilTick` | src/main/frontend/main.c:153-209 | from the check to the next look at the clock no alarm lies in the past, and none is due unless the drain has set it |
| `Alarm.SleepsInTime` | src/main/frontend/main.c:209-240 | in every run the computed sleep ends no later than the earliest alarm; an alarm that an init hook sets for now is included, since a drain that handled something is not followed by a sleep |
| `Alarm.DueIsCalled` | src/main/frontend/main.c:161-162 | in every run an alarm whose time has come when the clock is read is called by the check that follows |
| `Alarm.WakesInTime` | src/main/frontend/main.c:211-240 | for any clock with a bound, exactly when a sleep ends in time: if interrupted, no alarm lies in the past; if not, nothing is due and the cached time is ahead, or all alarms lie beyond the longest sleep |
| `Alarm.SleepIsLeast` | src/main/frontend/main.c:211-240 | no sleep after an interrupt; else it is positive, at most sixty thousand seconds, the time asked for and the time to the cached alarm, and equal to one of the three |
| `Alarm.Alarms.SetAlarm` | include/initng/handler.h:37 | the macro, in place |
| `Alarm.Alarms.RunAlarm` | src/main/handler/run_alarm.c:37-72 | the loop over all services, in place: new alarms, cached time and who was called |
| `Alarm.Alarms.CheckAlarms` | src/main/frontend/main.c:161-162 | a pass is made exactly when the cached time is set and has come |
| `Alarm.Alarms.TimeToSleep` | src/main/frontend/main.c:211-240 | the sleep: the least of timeout, requested seconds and time to the cached alarm |
| `Signals.Record` | src/main/signal/set.c:36-50 | recording keeps the table's size; the signal is in it afterwards unless the table was full of others |
| `Signals.RunIsSplit` | src/main/signal/dispatch.c:24-48 | after every interleaving of undisturbed arrivals and dispatch steps the table is two runs without duplicates: new signals at the front, old ones from the dispatcher on, free slots elsewhere |
| `Signals.EnoughSlotsLoseNothing` | src/main/signal/set.c:36-50 | if no recorder is interrupted, 2K - 1 slots lose none of K kinds under every interleaving with the dispatch |
| `Signals.BetweenPassesLoseNothing` | src/main/signal/set.c:36-50 | if no recorder is interrupted, between passes K slots lose none of K kinds |
| `Signals.SixKindsCanBeLost` | src/main/signal/set.c:94-101 | for any six kinds there is an interleaving that fills ten slots and loses a signal |
| `SignalNesting.ScanIsSequential` | src/main/signal/set.c:36-50 | interruptions of a recorder by others anywhere but between its test and its store leave what the recorders would leave one after the other |
| `SignalNesting.EnoughSlotsWithoutWindows` | src/main/signal/set.c:36-50 | without interruptions there, 2K - 1 slots lose none of K kinds, under every nesting and interleaving |
| `SignalNesting.TenSlotsHoldFiveKinds` | include/initng/config/global.h:32 | with ten slots, and as long as no recorder is interrupted between its test and its store, no signal is lost if and only if at most five kinds occur |
| `SignalNesting.TwoKindsCanBeLost` | src/main/signal/set.c:44-45 | for any two kinds and any number of slots, an interruption between test and store that loses a signal |
| `SignalNesting.OnlyOneKindIsSafe` | src/main/signal/set.c:36-50 | with interruptions anywhere, no signal is lost if and only if at most one kind occurs, whatever the number of slots |
| `SignalNesting.RecordedIsDispatched` | src/main/signal/dispatch.c:24-48 | whatever interrupts what: a signal in the table stays in its slot until the loop comes by and is dispatched then |
| `SignalNesting.WithinTwoPasses` | src/main/signal/dispatch.c:24-48 | what a burst of arrivals leaves in the table is dispatched within two passes |
| `SignalNesting.SetSignal` | src/main/signal/set.c:36-50 | the handler with its interruptions, on the table itself |
| `Signals.SignalTable.SetSignal` | src/main/signal/set.c:36-50 | the handler, in place; it reports whether the signal was stored |
| `Signals.SignalTable.Dispatch` | src/main/signal/dispatch.c:24-48 | one dispatch loop, with signals arriving in between, is one whole pass of the run |
| `OutputBuffer.ReadsAreATurn` | src/main/io/read_input.c:64-123 | for all answers of the system: no read follows one that gave nothing, so the loop goes on exactly after a full step and its test for EINTR never decides |
| `OutputBuffer.InputKeepsEnd` | src/main/io/read_input.c:36-192 | one call hands on exactly what it read, keeps all or the last 9000 characters by the exact rule, and closes exactly at the end of the output |
| `OutputBuffer.KeptInNumbers` | src/main/io/read_input.c:170-189 | ten thousand characters are kept, one more leaves nine thousand, and at the end of the output nothing is cut |
| `OutputBuffer.InputStaysLean` | src/main/io/read_input.c:139-189 | after every call an empty buffer is freed, a closed one is cut to its content, and an open one has at most five hundred characters to spare; after a cut exactly five hundred |
| `OutputBuffer.BufferHoldsTheEnd` | src/main/io/read_input.c:36-192 | in every run: deliveries joined are the stream; the buffer is an end of it of at least 9000 characters if there are as many, at most 10000 while open, within its allocation, which is never much more |
| `OutputBuffer.Pipe.MakeRoom` | src/main/io/read_input.c:74-103 | afterwards there is room for a hundred characters and the terminator, with the content kept |
| `OutputBuffer.Pipe.Append` | src/main/io/read_input.c:107-119 | the characters read go behind the content, followed by the terminator |
| `OutputBuffer.Pipe.ReadAll` | src/main/io/read_input.c:64-123 | the reading loop with its break and its condition, in place, always within the allocation; how many reads it makes |
| `OutputBuffer.Pipe.Close` | src/main/io/read_input.c:148-167 | the pipe is closed and the buffer cut to size |
| `OutputBuffer.Pipe.Purge` | src/main/io/read_input.c:170-189 | the last 9000 characters move to the front |
| `OutputBuffer.Pipe.ReadInput` | src/main/io/read_input.c:36-192 | one call, in place: buffer and deliveries |
| `DataStore.Resolve` | src/main/data/local.h:27-30 | the type an alias chain ends at is no alias with a target |
| `DataStore.AliasWalk` | src/main/data/local.h:27-30 | the loop ends at that type |
| `DataStore.AnswersToOwn` | src/main/data/get_next_var.c:33-114 | an entry answers to its own type and name; a missing name, in the entry or in the question, fits every name |
| `DataStore.AnswersApart` | src/main/data/get_next_var.c:33-114 | no entry answers to two types, and none with a name to two names |
| `DataStore.SearchOwn` | src/main/data/get_next_var.c:33-114 | the walk over a store's own entries: first match after the last one found, or what is still sought |
| `DataStore.GetNextVar` | src/main/data/get_next_var.c:33-114 | the first match after the given entry along the whole fallback chain |
| `DataStore.Collect` | src/main/data/get_next_var.c:33-114 | iterating visits each matching entry of the chain once, in order, and nothing else |
| `DataStore.Unlink` | src/main/data/remove.c:32-60 | the entry leaves whatever list of the chain it is on, and nothing else moves |
| `DataStore.RemoveVar` | src/main/data/remove.c:80-96 | every match along the chain goes; each store keeps the rest in order |
| `DataStore.SetValue` | src/main/data/set_int_var.c:30-69 | an accepted set is what a get then finds; every other entry keeps its value; at most that one entry is added, to this store only; exactly when a set is accepted |
| `DataStore.AcceptedKinds` | src/main/data/set_int_var.c:30-69 | a set is accepted if and only if the type is of that kind, or of the kind with names, fifty above it, and a name is given |
| `DataStore.Assign` | src/main/data/set_string_var.c:30-74 | the part after the checks: overwrite the entry a get finds, or add one |
| `DataStore.Add` | src/main/data/set_string_var.c:30-74 | a new entry behind the store's others, found by a get |
| `DataStore.GetIntVar` | src/main/data/get_int_var.c:30-38 | the number of the first match, or zero |
| `DataStore.SetVar` | src/main/data/set_var.c:29-64 | a flag is found after an accepted set; exactly one entry is added, and only if there was none |
| `IntrusiveList.Init` | include/initng/list.h:35-39 | an empty ring |
| `IntrusiveList.Add` | include/initng/list.h:50-60 | an unlinked node becomes the first; a linked one is left alone |
| `IntrusiveList.Del` | include/initng/list.h:91-101 | the entry is taken out and linked nowhere; an unlinked one is left alone |
| `IntrusiveList.Move` | include/initng/list.h:108-112 | from one list to the front of another |
| `IntrusiveList.MoveToFront` | include/initng/list.h:108-112 | within one list |
| `IntrusiveList.Join` | include/initng/list.h:144-162 | one list goes in front of the other's entries, in order, and is empty |
| `IntrusiveList.SharedNodeSameRing` | include/initng/list.h:50-60 | a node is on at most one list, at one place |
| `IntrusiveList.WalkAll` | include/initng/list.h:223-228 | the loop visits the entries from the oldest on |
| `IntrusiveList.WalkOldestFirst` | include/initng/list.h:223-228 | with deletions of the current node, every entry is visited once, oldest first, and the others stay in order |
| `IntrusiveList.AddTail` | include/initng/list.h:71-81 | what it does: the new entry's back link is itself |
| `IntrusiveList.NoEntryPrecedesItself` | include/initng/list.h:71-81 | so the result is never a ring with that entry |
| `NgcsWire.DecodeEncode` | src/modules/ngcs/ngcs_common.c:97-161 | 32-bit numbers survive encoding |
| `NgcsWire.EncodeDecode` | src/modules/ngcs/ngcs_common.c:163-210 | and every four bytes are a number's encoding |
| `NgcsWire.IntBytes` | src/modules/ngcs/ngcs_common.c:97-161 | the four bytes of a number, least significant first, written out |
| `NgcsWire.EntryBytes` | src/modules/ngcs/ngcs_common.c:97-161 | a string of one character, byte by byte: type, length, character |
| `NgcsWire.ParseRender` | src/modules/ngcs/ngcs_common.c:212-270 | parsing finds exactly the entries that were rendered, whatever tail of under eight bytes follows |
| `NgcsWire.RenderParse` | src/modules/ngcs/ngcs_common.c:212-270 | a block that parses is its entries rendered, and such a tail |
| `NgcsWire.ParsesExactly` | src/modules/ngcs/ngcs_common.c:212-270 | a block parses to given entries if and only if it has that form |
| `NgcsCodec.UnpackInvertsPack` | src/modules/ngcs/ngcs_common.c:97-270 | unpacking what was packed gives every item back, of a long the low half, whatever the bytes left unwritten and whatever short tail follows |
| `NgcsCodec.LongComesBackIff` | src/modules/ngcs/ngcs_common.c:116-124 | a long comes back as itself if and only if it fits an int |
| `NgcsCodec.RefusedIff` | src/modules/ngcs/ngcs_common.c:97-161 | only numbers and strings may come with a negative length, and of a string it is found at the terminator |
| `NgcsCodec.PackItem` | src/modules/ngcs/ngcs_common.c:97-161 | one item: its bytes at the cursor, its length filled in, or refused |
| `NgcsCodec.Pack` | src/modules/ngcs/ngcs_common.c:97-161 | sizing pass and writing pass return the same number, which is exactly what is filled, but for half of each long; 1 for an unpackable item |
| `NgcsCodec.CountOfParsed` | src/modules/ngcs/ngcs_common.c:212-270 | the counting pass counts exactly the entries of a block that parses, and fails only on one that does not |
| `NgcsCodec.CountEntries` | src/modules/ngcs/ngcs_common.c:212-270 | the counting loop |
| `NgcsCodec.ReadEntry` | src/modules/ngcs/ngcs_common.c:163-210 | one entry decoded at the cursor, or refused |
| `NgcsCodec.UnpackEntry` | src/modules/ngcs/ngcs_common.c:238-267 | one turn of the second pass: one more item, within the room the first pass made, or failure |
| `NgcsCodec.Unpack` | src/modules/ngcs/ngcs_common.c:212-270 | both passes together refine the parser: every item, or failure |
| `NgcsPython.PacksIff` | src/modules/ngcs/ngcs.py:398-414 | the client packs a value, however nested, if and only if its numbers and the lengths of its parts fit in 32 bits; and how long the result is |
| `NgcsPython.RoundTrip` | src/modules/ngcs/ngcs.py:398-436 | unpacking a packed value gives it back, however deep the nesting |
| `NgcsPython.RoundTripItems` | src/modules/ngcs/ngcs.py:398-436 | the same for the items of a tuple |
| `NgcsPython.PackedTupleParses` | src/modules/ngcs/ngcs.py:398-414 | what the client packs, the C side parses, entry for entry, with nothing left over |
| `NgcsPython.RenderedUnpacks` | src/modules/ngcs/ngcs.py:416-436 | what the C side renders, the client unpacks entry for entry |
| `NgcsPython.FirstBadDecides` | src/modules/ngcs/ngcs.py:416-436 | and where entries do not unpack, the first of them decides: the client raises or hangs as it does there |
| `NgcsPython.LongUnpacks` | src/modules/ngcs/ngcs.py:416-436 | eight bytes are read as the signed number they encode, and no other length is taken for a long |
| `NgcsPython.MinusEightHangs` | src/modules/ngcs/ngcs.py:416-436 | a structure whose first entry has length minus eight is never finished |
| `NgcsStream.PrefixOfFrames` | src/modules/ngcs/ngcs_common.c:346-391 | frames are uniquely decodable: a prefix of framed bytes frames a prefix of the messages |
| `NgcsStream.MessageBytes` | src/modules/ngcs/ngcs_common.c:346-391 | a message of one character, byte by byte: channel, type, length, character |
| `NgcsStream.CloseBytes` | src/modules/ngcs/ngcs_common.c:346-391 | a close message, byte by byte: its length is minus one and nothing follows |
| `NgcsStream.AnyChunking` | src/modules/ngcs/ngcs.py:123-151 | however the bytes are cut, what is dispatched is a prefix of what was framed, and all of it once all bytes are there |
| `NgcsStream.DispatchedInOrder` | src/modules/ngcs/ngcs_common.c:346-391 | in every run of sender, socket and receiver: dispatched messages are a prefix of those accepted, and all of them when everything is flushed and read |
| `NgcsStream.PostedArrive` | src/modules/ngcs/ngcs_common.c:346-391 | in every run, counted by the steps alone: what is dispatched is a prefix of the messages posted while the connection was open and the buffer could grow; and all of them if nothing broke or closed it and socket and reader took as many bytes as their frames have |
| `NgcsStream.RunCounts` | src/modules/ngcs/ngcs_common.c:558-580 | in every run the connection is open if and only if no step closed it or found it broken with something to send; the messages queued and the bytes on the wire are those of the steps |
| `NgcsStream.SendSays` | src/modules/ngcs/ngcs_common.c:346-391 | a send fails if and only if the connection is closed, the buffer cannot grow, or the connection breaks |
| `NgcsStream.Conn.Send` | src/modules/ngcs/ngcs_common.c:346-391 | queue the framed message, growing the buffer, and flush; its failures |
| `NgcsStream.Conn.Append` | src/modules/ngcs/ngcs_common.c:346-391 | the frame goes behind what is waiting |
| `NgcsStream.Conn.Grow` | src/modules/ngcs/ngcs_common.c:346-391 | growing keeps what is waiting |
| `NgcsStream.Conn.WriteReady` | src/modules/ngcs/ngcs_common.c:558-580 | a partial write takes a prefix and keeps the rest, in place |
| `NgcsReceive.AsyncConnect.TryRecv` | src/modules/ngcs/ngcs.py:123-151 | the client's receive loop refines the receiver and leaves no whole message in its buffer |
| `NgcsReceive.Socket.RecvAll` | src/modules/ngcs/ngcs_common.c:720-735 | on success exactly the wanted bytes are taken off the stream |
| `NgcsReceive.Socket.RecvMsg` | src/modules/ngcs/ngcs_common.c:65-95 | on success exactly one framed message is taken off the stream and returned |
| `NgcsReceive.RecvTakesFirst` | src/modules/ngcs/ngcs_common.c:65-95 | from a stream of framed messages that is the first, and the stream is left at the second |
| `NgcsPairing.Channel0.SendResponse` | src/modules/ngcs/initng_ngcs.c:511-520 | only the first response of a request goes out |
| `NgcsPairing.Channel0.HandleChan0` | src/modules/ngcs/initng_ngcs.c:331-399 | a request gets exactly one answer, for every set of commands and every behaviour of their handlers |
| `NgcsPairing.Channel0.RunNamed` | src/modules/ngcs/initng_ngcs.c:331-399 | the first command of the name answers, with null if its handler is silent |
| `NgcsPairing.Channel0.RunNameless` | src/modules/ngcs/initng_ngcs.c:331-399 | otherwise the first nameless command that responds |
| `NgcsPairing.OwnNameAnswers` | src/modules/ngcs/initng_ngcs.c:331-399 | a request whose word is registered is answered by the first command of that name, with null if it is silent, whatever nameless commands there are |
| `NgcsPairing.NamelessAnswers` | src/modules/ngcs/initng_ngcs.c:331-399 | any other by the first nameless command that responds, and else with COMMAND_NOT_FOUND |
| `NgcsPairing.BadRequests` | src/modules/ngcs/initng_ngcs.c:331-399 | what is no structure with a string in front is answered with BAD_REQUEST |
| `NgcsPairing.ClientNamesItsCommand` | src/modules/ngcs/ngcs.py:398-414 | what the client packs of a tuple with a string in front is a request for the command of that name |
| `NgcsPairing.NextKeepsPaired` | src/modules/ngcs/ngcs.py:82-90 | asking, serving and hearing keep requests, answers and callbacks lined up |
| `NgcsPairing.EachCallbackGetsItsAnswer` | src/modules/ngcs/ngcs.py:82-90 | in every run each callback is called with the answer to its own request, and no response is unexpected |
| `NgcsPairing.CalledByTheSteps` | src/modules/ngcs/ngcs.py:82-90 | in every run, counted by the steps alone: as many callbacks are called as responses are heard, in the order of the requests, each with the answer to its own |
| `NgcsChannel.Close` | src/modules/ngcs/ngcs_common.c:419-434 | afterwards the channel is not open; of every channel each callback run uses up its one chance, an obligation to call one is never dropped, and unlinking and freeing happen together and once |
| `NgcsChannel.CloseConn` | src/modules/ngcs/ngcs_common.c:657-685 | the same for the walk over all channels, whose callbacks act on any of them |
| `NgcsChannel.CloseNow` | src/modules/ngcs/ngcs_common.c:455-470 | the same, with the close callback called at once, from wherever it is called; of an open channel both callbacks are gone afterwards |
| `NgcsChannel.Delete` | src/modules/ngcs/ngcs_common.c:472-494 | the same; nothing but the deletion itself frees a channel that is being deleted, and it leaves the channel freed, or waiting for the peer |
| `NgcsChannel.PeerClosed` | src/modules/ngcs/ngcs_common.c:437-453 | the same for a close by the peer: the channel is closed, its close callback has run if it was owed, and a deleted channel is freed |
| `NgcsChannel.HappenFine` | src/modules/ngcs/ngcs_common.c:393-522 | every event keeps, of every channel, what is owed to it: the close callback run or still to come unless cut off, the free callback run exactly if deleted, freed if deleted and closed |
| `NgcsChannel.EveryHistoryIsFine` | src/modules/ngcs/ngcs_common.c:393-522 | for every history, whatever the callbacks do to any channels and whichever sends fail: a closed channel that was registered with a close callback has run it exactly once, if and only if it was not cut off by a deletion; a deleted one has run its free callback exactly once, any other not at all; one that is deleted and closed is unlinked and freed exactly once, and both always happen together |
| `NgcsClosing.ClosesRight` | src/modules/ngcs/ngcs_common.c:419-434 | a channel that is not open is left alone; with a connection an open one waits for the peer, and nothing else changes unless the send fails; without one it is closed |
| `NgcsClosing.DeleteCutsIff` | src/modules/ngcs/ngcs_common.c:472-494 | the first deletion loses the close callback if and only if the channel was waiting for the peer with the callback set; it takes the data callback away if and only if the channel was open; it frees the channel if and only if it is closed then |
| `NgcsClosing.DeletedThenClosed` | src/modules/ngcs/ngcs_common.c:437-494 | for all callbacks: deleted while it waits for the peer, and then closed by the peer, the channel is freed with its close callback never called |
| `NgcsClosing.CallbackLost` | src/modules/ngcs/ngcs_common.c:393-494 | four events from an empty connection that lead there |
| `NgcsClosing.BreakShutsAll` | src/modules/ngcs/ngcs_common.c:657-685 | whatever the callbacks do: when a connection closes without using freed memory, no channel left on it is open |
| `NgcsClosing.FreeingLeavesNone` | src/modules/ngcs/ngcs_common.c:687-701 | freeing a connection unlinks and frees every channel left on it, and no other again |
| `NgcsClosing.DataReaches` | src/modules/ngcs/ngcs_common.c:497-522 | data of the peer reaches the callback if and only if the channel is there, is not closed and still has one |
| `NgcsFreedMemory.NoneAfterIsSafe` | src/modules/ngcs/ngcs_common.c:657-685 | if close and free callbacks leave the channels alone that come after their own, no history uses a channel after it was freed |
| `NgcsFreedMemory.WalkTouchesFreed` | src/modules/ngcs/ngcs_common.c:669-671 | for every other close callback, a connection of two channels whose walk comes to a freed one |
| `NgcsFreedMemory.SafeIffNotAfter` | src/modules/ngcs/ngcs_common.c:657-685 | a close callback is safe on every connection and in every history if and only if it leaves later channels alone |
| `NgcsFreedMemory.CloseNowTouchesFreedIff` | src/modules/ngcs/ngcs_common.c:455-470 | a call from outside uses a freed channel if and only if there is no connection and the close callback deletes the channel |
| `NgcsChannel.Connection.Register` | src/modules/ngcs/ngcs_common.c:393-417 | a new open channel at the end of the walk order |
| `NgcsChannel.Connection.ConnClose` | src/modules/ngcs/ngcs_common.c:657-685 | the walk with the next channel fetched early, in place, refines `NgcsChannel.CloseConn` |
| `NgcsChannel.Connection.ChanClose` | src/modules/ngcs/ngcs_common.c:419-434 | refines `NgcsChannel.Close` |
| `NgcsChannel.Connection.ChanCloseNow` | src/modules/ngcs/ngcs_common.c:455-470 | refines `NgcsChannel.CloseNow` |
| `NgcsChannel.Connection.ChanDel` | src/modules/ngcs/ngcs_common.c:472-494 | refines `NgcsChannel.Delete` |
| `NgcsChannel.Connection.ChanClosed` | src/modules/ngcs/ngcs_common.c:437-453 | refines `NgcsChannel.PeerClosed`, callback included |

## Left out

- StartService.StartReachesExactly: cyclic dependency graphs are outside it, because the recursion of the code need not end there.
- StartService.Start: a dependency that is not registered counts as one that cannot be loaded; creating services from files is not modelled.
- RestartBarrier.RestartWaitsForWholeBatch: services in its runs are unlocked between steps.
- Interrupt.Drain: hooks are given as a finite script, so a drain that its hooks keep busy for ever is not modelled; the `last_rought_time` bookkeeping is left out.
- Alarm.AlwaysTracked: clock compensation is outside it, because it shifts unset alarms and not the cached time; services do not come and go during a pass.
- Daemon.RespawnsAreSpaced: clocks that go back are outside it.
- Daemon.Next: state changes commit at once; a daemon that is locked by another module meanwhile is not modelled.
- NgcsCodec.Pack: a long has eight bytes here, low ones first; the wrap-around of 32-bit totals is not modelled.
- NgcsPython.RoundTrip: values the client itself refuses to pack, or receives as an error object, are outside it.
- NgcsChannel.EveryHistoryIsFine: callbacks do not register channels; after freed memory was used, the walk stops here, while the program may do anything.
- NgcsPairing.EachCallbackGetsItsAnswer: sessions in which a client closes channel 0 and keeps its handler are outside it.
- NgcsReceive.Socket.RecvMsg: after a failure the bytes already read are lost, as in the code, and nothing is promised about the stream.
- DataStore.SetValue: the hooks by which modules supply values on request are not modelled; neither is `copy_all`.
- ServiceDb.Db.StartService: as in StartService.Start, a dependency that is not registered is never loaded.
- ServiceDb.Db.StartDeps: as in StartService.Start, a dependency that is not registered is never loaded.
- DataStore.GetNextVar: the hooks by which modules supply values on request are not modelled.
- Signals: what each dispatched signal makes the program do; a signal's own kind is held back while it is recorded.
- `initng_depend_restart_deps`, the other service types, the parsers of service files, the shutdown and fork code, and the plug-in loader.
- Widths of times and sizes: numbers are unbounded except on the wire.
