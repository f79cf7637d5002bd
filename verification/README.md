# Verification model of docker-systemd's init engine

docker-systemd is a small replacement for systemd inside containers. This project models the parts of it where
state, order and arithmetic meet, and proves what they do:

- **The service engine** (`Engine.dfy` and the files that begin with it, `Daemon.dfy`). `Engine` says what one start, stop or restart
  call does when nothing else runs. A start is a straight line with early returns, so it is written as a program of
  instructions whose dependency instructions call `Start` again; a unit's rank in the acyclic graph of start edges
  (`Graph.dfy`) makes the recursion end. Commands, log files, environment files and users, and the random order of
  Go's map iteration are oracles that may depend on the whole history, so a theorem holds for every behaviour of the
  outside world that its hypotheses allow. `Daemon.dfy` holds the units as the objects they are: each method updates fields and calls
  other objects, and is proved to do to the heap exactly what the engine's function does to its snapshot.
  The proofs are grouped by theorem: quiescence (`EngineSettled`), order (`EngineOrder`), what stays up and is launched
  at most once (`EngineGrowth`, `EngineRerun`, `EngineBlock`), failure propagation (`EngineFailure`), success
  (`EngineSuccess`), shutting everything down (`EngineStopAll`), and the restart policy over whole lives
  (`EngineMonitor`). Other files read the history itself and name what is in it, command by command and word by word:
  what a stop does (`EngineActs`), how a start begins and ends (`EngineHalt`), which other units it starts
  (`EngineNesting`, `EngineChildren`), what a restart is (`EngineRestart`), what the words of the policy mean
  (`EngineExit`), and what is kept on record (`EngineMarks`).
- **Shutdown under concurrency** (`Shutdown.dfy`, `ShutdownRuns.dfy`). Any number of goroutines inside nested starts,
  interleaved step by step with stops and with the setting of the shutdown flag.
- **The link pass of a reload** (`Linker.dfy`, `LinkPass.dfy`). What the pass writes, as a function of the iteration
  order; its closed form; exactly when the order does not matter; and the pass as nested loops over objects.
- **Unit files and time spans** (`UnitFile.dfy`, `UnitLine.dfy`, `UnitFields.dfy`, `Spelling.dfy`, `Duration.dfy`,
  `DurationExact.dfy`, `DurationWords.dfy`, `Quote.dfy`, `Strings.dfy`). The loader's single loop against two simple phases;
  what a line means and what each field holds after a load; the chain of substring replacements that normalises unit names;
  the 64-bit parser, with its wrap-around written out, against plain sums; the quoting of error messages. The span syntax is that of systemd.time(7), section "Parsing Time Spans"; UTF-8 is that of section 4 of
  RFC 3629.
- **Reaping** (`Reaper.dfy`, `ReaperReuse.dfy`, `CommandWait.dfy`, `CommandReturns.dfy`, `FinalReap.dfy`). Waiters, command
  runners, reapers and a kernel as interleaved steps, with and without reuse of pids.
- **Process ancestry** (`PidTracker.dfy`) and **the control protocol** (`Codec.dfy`, `Handshake.dfy`).

`dafny verify dfyconfig.toml` checks the whole project.

## What the proofs found

Each of these is a lemma with a concrete input or an exact condition.

- A stop, or the cleanup of a start, whose log cannot be opened leaves its unit in Stopping. It stays there until a later
  stop finds the log open; until then a start reports success without doing anything
  (`EngineSettled.UnopenableLogStrands`). If a unit's log opens either always or never, a run of calls that begins
  settled ends settled if and only if every log it asked for opens (`EngineSettled.RunSettlesIff`).
- A unit can run its whole block twice in one start call: brought up by one relation, stopped by the Conflicts of a unit
  started next, and brought up again by a later relation (`EngineRerun.RunsTwiceExample`). Where nothing declares Conflicts
  it cannot (`EngineGrowth.RunningLaunchesNothing`).
- Two spans of exactly 2^63 ns one after the other are accepted as 0 (`DurationExact.SlipExample`); this is the only way
  the parser departs from the sum (`DurationExact.ParserExactIff`, `DurationExact.AcceptsIff`).
- Bare digits beyond 9223372036 wrap, while the same digits with a unit are refused
  (`DurationExact.DigitsAreSecondsIff`).
- With Requisite in use the result of linking can depend on map order; exactly when, is `Linker.ConfluentIff`.
- A zero byte in a command's output can make the client give up (`Handshake.AnswersIff`).
- A reused pid can hand a waiter the status of another process (`ReaperReuse.PidReuseBreaks`); exactly when it still can, is
  `ReaperReuse.GoesWrongIff`. That no reaper had the pid in hand when the entry was made does not help
  (`ReaperReuse.LaterReuseBreaks`).
- A call of `Run` can wait for ever: a reaper that passes the command's entry while `cmd.Process` is still nil does not
  recognise it (`CommandReturns.LostExample`). The exit alone does no harm; exactly when the call can still come back, is
  `CommandReturns.ComesBackIff`.
- The comment on `Wait` says that it returns nil for a process that has already exited; the code returns nil only when the
  process is gone from the kernel, and a dead child that has not been reaped yet still gets an entry. The model follows
  the code.

## Model

| member | source | states |
|---|---|---|
| EngineOrder.StartOrdered | systemd/daemons/daemon.go:414-819 | Whatever the states, results, masks and map orders: between the beginning of a start call and any ExecStartPre, ExecStart or ExecStartPost it launches for a unit, every loaded Requires and BindsTo dependency of that unit returned success; and at that moment the unit itself and its Conflicts are not Running. |
| EngineOrder.StartRaises | systemd/daemons/daemon.go:619-699 | A start makes Running only its own unit and units reachable from it along Requires, BindsTo, Wants and Upholds. |
| EngineOrder.ProgramInOrder | systemd/daemons/daemon.go:572-779 | The order of the stages inside one start: conditions, dependencies, conflicts, ExecStartPre, ExecStart, ExecStartPost, the end. |
| EngineOrder.StopLaunchesNothing | systemd/daemons/daemon.go:828-946 | No stop ever launches a start command. |
| EngineGrowth.StartGrows | systemd/daemons/daemon.go:414-819 | Where no unit declares Conflicts, and for every history of command results: a start never brings a Running unit down, at any event on the way. |
| EngineGrowth.RunningLaunchesNothing | systemd/daemons/daemon.go:492-495 | Under the same hypothesis a unit seen Running at any event of a start call launches nothing after that event. |
| EngineGrowth.AlreadyRunningLaunchesNothing | systemd/daemons/daemon.go:492-495 | In particular one that was Running before the call launches nothing in it. |
| EngineRerun.RunsTwice | systemd/daemons/daemon.go:619-699 | With Conflicts it can: wherever r requires and upholds a and wants b, b conflicts with a, and all succeeds, a start of r runs the block of a twice. |
| EngineRerun.RunsTwiceExample | systemd/daemons/daemon.go:681-699 | Three concrete units on which it happens. |
| EngineBlock.StartRunsBlock | systemd/daemons/daemon.go:572-806 | Whatever commands, conditions, logs, conflicts and other units do: a start of a unit that is not Running runs its conditions, ExecStartPre, ExecStart and ExecStartPost lines from the front, each once and in order, the start lines without leading dashes, and all of them if it leaves the unit Running. |
| EngineBlock.StartRan | systemd/daemons/daemon.go:619-699 | A start runs conditions and start commands only of its own unit and of units reachable from it along start edges. |
| EngineSettled.StartSettles | systemd/daemons/daemon.go:414-819 | With logs openable and no shutdown, a start leaves every unit Running or Stopped, whatever the commands return and whatever conflicts it stops. |
| EngineSettled.RestartSettles | systemd/daemons/daemon.go:948-973 | The same for a restart. |
| EngineSettled.EveryRunSettles | systemd/daemons/daemon.go:414-973 | Quiescence: every sequence of Start, Stop and Restart calls, run one at a time, leaves no unit in Starting, Stopping or Restarting. |
| EngineSettled.StartStrands | systemd/daemons/daemon.go:414-819 | If each unit's log opens either always or never: a start leaves in Stopping exactly the units that were there before and those whose logs it asked for and which do not open; every other unit is Running or Stopped. |
| EngineSettled.RestartStrands | systemd/daemons/daemon.go:948-973 | The same for a restart. |
| EngineSettled.EveryRunStrands | systemd/daemons/daemon.go:414-973 | The same for every sequence of Start, Stop and Restart calls. |
| EngineSettled.BootStrands | systemd/daemons/daemons.go:36-71 | The same for the starts of all wanted units after the first reload. |
| EngineSettled.RunSettlesIff | systemd/daemons/daemon.go:414-973 | Exactly when a sequence of calls leaves every unit settled: if and only if every log it asked for opens. |
| EngineSettled.StartAsksWithin | systemd/daemons/daemon.go:518-699 | A start asks only for logs of units reachable along start edges and of what those conflict with, for every configuration and oracle. |
| EngineSettled.TouchedLogsOpenSettles | systemd/daemons/daemon.go:414-819 | What can be looked at beforehand: if the logs of all those units open, the start leaves every unit settled. |
| EngineSettled.OwnLogStrands | systemd/daemons/daemon.go:503-517 | If its own log does not open, a start past its entry checks fails and leaves its unit in Stopping. |
| EngineSettled.UnopenableLogStrands | systemd/daemons/daemon.go:841-849 | A stop leaves Stopping if and only if its log does not open then, and Stopped otherwise; a unit found in Stopping makes Start succeed and change no unit, and Restart fail. |
| EngineFailure.StartExact | systemd/daemons/daemon.go:572-680 | For fixed outcomes and no conflicts: start returns an error if and only if the unit, or one reached from it along Requires and BindsTo through units not running whose conditions hold, fails itself; every nested start tells the truth in the same sense; the unit ends Running, or Stopped on error or on a condition that does not hold; an error is recorded just when it failed, unless its environment was at fault. |
| EngineFailure.WillFailUnfolds | systemd/daemons/daemon.go:572-655 | The path form of failure agrees with the one-step form: own failure, or that of a hard dependency while not running and with its conditions met. |
| EngineFailure.Stable | systemd/daemons/daemon.go:622-656 | Units coming up on the way never change whether a unit fails, so the verdict can be read before the call. |
| EngineFailure.AbortedLaunchesNothing | systemd/daemons/daemon.go:626-655 | A unit with a failing Requires or BindsTo dependency launches none of its start commands. |
| EngineSuccess.StartBringsUp | systemd/daemons/daemon.go:414-819 | When, among the units reached through units not running, every command succeeds, none declares Conflicts and no Requires or BindsTo dependency is masked: exactly the units that were Running and the unmasked ones so reached are Running afterwards; each that came up ran its conditions and its ExecStartPre, ExecStart and ExecStartPost lines once and in order, and no other unit ran any. |
| EngineSuccess.StartAll | systemd/daemons/daemon.go:414-819 | The same relative to an earlier world, as the recursion needs it: running units stay up, and with each unit that comes up everything it reaches does. |
| EngineSuccess.ReachedUnfolds | systemd/daemons/daemon.go:619-680 | Reachability through passable units, one edge at a time. |
| EngineSuccess.LaunchesOfProgram | systemd/daemons/daemon.go:572-806 | The commands a start will run are the conditions of the unit as they stand, then its ExecStartPre, ExecStart and ExecStartPost lines without leading dashes, in this order. |
| EngineActs.StopDoes | systemd/daemons/daemon.go:841-946 | The exact history of a stop whose log opens: the log, then every ExecStopPre, ExecStop and ExecStopPost line once and in order, whatever they return, then one wait for the processes; it succeeds, and an error is recorded if and only if one of the answers was no or one was there before. |
| EngineActs.StopDoesNot | systemd/daemons/daemon.go:829-849 | Every other stop: a unit that is not loaded succeeds at once, a masked one is refused, and one whose log does not open runs no command and stays in Stopping with an error. |
| EngineActs.FailedCommandStops | systemd/daemons/daemon.go:720-744 | A start command without a leading dash that fails: the unit's whole stop follows in the history, and the start gives up with the unit Stopped and an error recorded. |
| EngineActs.OtherCommandGoesOn | systemd/daemons/daemon.go:713-733 | A start command that succeeds, or whose line has a leading dash, is one event, run without the dash, and the start goes on. |
| EngineHalt.StartHalts | systemd/daemons/daemon.go:572-806 | In any start whatsoever: once one of the unit's own conditions is answered no, nothing more happens and the start succeeds with the unit Stopped; once one of its start commands without a leading dash is, its whole stop follows if its log opens, then nothing more, and the start fails with the unit Stopped and an error recorded. |
| EngineHalt.StartBegins | systemd/daemons/daemon.go:503-571 | A start past its entry checks, whose log opens, begins with the unit's whole stop; only then it asks for its environment, and then for its log. |
| EngineChildren.StartsDependencies | systemd/daemons/daemon.go:619-680 | The starts that a start makes itself, read off the nesting in its history: the loaded ones of Requires, BindsTo, Wants and Upholds, from the front and in this order, each relation in map order; all of them if the unit ends Running. |
| EngineNesting.StartNested | systemd/daemons/daemon.go:414-819 | Starts are well nested: the history of a start is one outermost start, whatever is inside. |
| EngineNesting.BootEnters | systemd/daemons/daemons.go:49-68 | The outermost starts of a boot are those of the loaded wanted units, each once for every time it is listed and in the order of the list. |
| EngineRestart.RestartStopsAndStarts | systemd/daemons/daemon.go:948-973 | From Running or Stopped, when the log opens: the history holds the unit's whole stop, directly after it the only start of the unit there is, and ends with that start's return of the restart's own result. |
| EngineRestart.RestartBringsUp | systemd/daemons/daemon.go:948-973 | Under the hypotheses of EngineSuccess.StartBringsUp, read for the stopped unit: the restart succeeds, exactly the units that were Running or are reached are Running, and the unit and each that came up ran its whole block once. |
| EngineRestart.RestartRefused | systemd/daemons/daemon.go:950-958 | A masked unit and one that is Starting, Stopping or Restarting are refused and nothing changes. |
| EngineMarks.StartMarks | systemd/daemons/daemon.go:489-491 | A start by hand marks its own unit, also one that is already Running, unless it is refused at the door; a start by another unit marks none, and no other unit's mark changes. |
| EngineMarks.StartRemains | systemd/daemons/daemon.go:499-501 | A start past its entry checks leaves its unit remaining after exit if and only if it did before or is a oneshot. |
| EngineMarks.WakeKeepsMarks | systemd/daemons/daemon.go:308 | A restart by the policy changes no unit's mark. |
| Engine.Stop | systemd/daemons/daemon.go:828-946 | A stop touches only its own unit, and one that succeeds on a loaded unit leaves it Stopped. |
| Engine.CleanUp | systemd/daemons/daemon.go:503-517 | A start that goes on after its cleanup finds its unit Stopped with no error, no shutdown, and every other unit untouched. |
| Engine.RunStopLines | systemd/daemons/daemon.go:852-866 | Stop commands change nobody's state and no other unit. |
| EngineStopAll.StopAllStills | systemd/daemons/daemons.go:73-90 | In whatever order the list is walked: the flag is set, every unmasked unit is Stopped or Stopping, Stopped if it was up and logs open; masked and already stopped units are untouched; no start command runs. |
| EngineStopAll.DownForGood | systemd/daemons/daemons.go:73-90 | After that, any sequence of Start, Stop and Restart calls keeps every unmasked unit down and launches nothing. |
| EngineStopAll.CallWhenDown | systemd/daemons/daemon.go:419-422 | The same for one call, which also leaves masked units untouched. |
| EngineMonitor.LivesAsItsPolicySays | systemd/daemons/daemon.go:266-376 | Over every sequence of process generations and exit statuses, whatever happens to other units, as long as the unit's own restarts succeed: it is launched again exactly as often as its policy asks, each generation judged in the world it exits in; it runs its whole block of conditions and start commands each time, is Running in between, and when a generation has no successor is Stopped, no longer marked as started by hand, with every BoundBy and ConsistsOf unit that is not masked Stopped. |
| EngineMonitor.PolicyAlone | systemd/daemons/daemon.go:288-347 | For a unit that nobody upholds the number of launches depends on the statuses and the literal word alone: "on-failure", "on-abnormal", "on-watchdog" and "on-abort" up to the first generation without a failure, "on-success" up to the first with one, "always" without end, any other word never. |
| EngineMonitor.UpheldForEver | systemd/daemons/daemon.go:278-287 | Where nothing conflicts, a unit upheld by another Running unit gets a successor in every generation while its restarts succeed. |
| EngineMonitor.NextGeneration | systemd/daemons/daemon.go:290-344 | One restart that leaves the unit Running was one start of it, ran its block exactly once more, and leaves it fit for the next, in any configuration. |
| EngineMonitor.LastGeneration | systemd/daemons/daemon.go:334-375 | The end of a run: Stopped, not manual, dependents stopped, nothing launched. |
| EngineMonitor.RestartingAsStopped | systemd/daemons/daemon.go:841-843 | A start from Restarting comes to the same as a start from Stopped, although the cleanup keeps the state Restarting. |
| EngineMonitor.EndRunIsOver | systemd/daemons/daemon.go:116-129 | Stopping the dependents leaves all of them that are not masked Stopped, and the unit itself Stopped. |
| EngineMonitor.UpholdersStay | systemd/daemons/daemon.go:279-285 | Where nothing conflicts, starting a unit changes for none of the units that uphold it whether it is Running, since start edges are acyclic. |
| EngineMonitor.SuccessorsExact | systemd/daemons/daemon.go:290-375 | The number of generations with a successor: each before it has one in the world it exits in, and it has none. |
| EngineMonitor.StartRemain | systemd/daemons/daemon.go:499-501 | A start makes only oneshot units remain after exit. |
| EngineExit.RestartWords | systemd/daemons/daemon.go:290-347 | For a running unit nobody upholds and that does not remain: it comes to a restart exactly as the literal word of Restart= says, by whether some status was a non-zero exit; otherwise its run is over. |
| EngineExit.RemainWords | systemd/daemons/daemon.go:313-375 | The same for a unit that remains after exit: when it stays Running with nothing done, and when its run is over all the same. |
| EngineExit.StoppedIsNotRestarted | systemd/daemons/daemon.go:278-280 | A unit that is being stopped, or restarted by hand, is not restarted by its policy. |
| EngineExit.SleepCutShort | systemd/daemons/daemon.go:294-298 | A stop or a shutdown during the sleep ends the reaction. |
| EngineExit.Wakes | systemd/daemons/daemon.go:293-357 | After the sleep the unit is started with the mark it has; if that fails under "on-success" its dependents are Stopped, and in no other case does anything but the start happen. |
| EngineExit.PowerOffIff | systemd/daemons/daemon.go:267-276 | The system is powered off if and only if some status failed and the failure action says so, or none did and the success action does; then nothing else happens, and otherwise no poweroff is asked for. |
| EngineExit.DependentsInOrder | systemd/daemons/daemon.go:116-129 | Only BoundBy and ConsistsOf units are stopped when a run ends, and those that are only in the second relation after those that are only in the first. |
| DaemonObjects.Daemon.Start | systemd/daemons/daemon.go:414-819 | On the heap of units: the result and the new state of all units, flag, masks and history are those of `Engine.Start`. |
| DaemonObjects.Daemon.StartEntered | systemd/daemons/daemon.go:419-496 | The entry checks on the object, equal to the engine's. |
| DaemonObjects.Daemon.CleanUpOldRun | systemd/daemons/daemon.go:503-517 | The cleanup on the object, equal to the engine's. |
| DaemonObjects.Daemon.RunProgram | systemd/daemons/daemon.go:518-819 | The body of start on the object, equal to running the unit's program. |
| DaemonObjects.Daemon.CheckConditions | systemd/daemons/daemon.go:572-600 | The loop over conditions either ends the start or leads to the rest of the program. |
| DaemonObjects.Daemon.StartDependencies | systemd/daemons/daemon.go:619-680 | The loop over one dependency relation, each dependency started by a recursive call on its object. |
| DaemonObjects.Daemon.StopConflicts | systemd/daemons/daemon.go:681-699 | The loop over conflicts, each stopped on its object. |
| DaemonObjects.Daemon.RunCommands | systemd/daemons/daemon.go:704-806 | The loop over one command list, with the abort check before each line. |
| DaemonObjects.Daemon.FinishStart | systemd/daemons/daemon.go:808-818 | The end of a start, unless the state changed to Stopping. |
| DaemonObjects.Daemon.CheckAbort | systemd/daemons/daemon.go:400-412 | True exactly when the flag is set or the unit is Stopping. |
| DaemonObjects.Daemon.Stop | systemd/daemons/daemon.go:828-946 | The stop on the object, equal to the engine's. |
| DaemonObjects.Daemon.StopLines | systemd/daemons/daemon.go:852-866 | The loop over stop commands: a failing one is recorded and the next still runs. |
| DaemonObjects.Daemon.Restart | systemd/daemons/daemon.go:948-973 | The restart on the object, equal to the engine's. |
| DaemonObjects.Daemons.StopAll | systemd/daemons/daemons.go:73-90 | The shutdown loop on the list of objects, equal to the engine's for some order of the list. |
| DaemonObjects.Daemons.constructor | systemd/daemons/daemons.go:120-125 | For any valid configuration, set of masked units and set of units that remain after exit: one object for each definition, and the list's snapshot is the engine's initial world. |
| DaemonObjects.Daemons.StartWanted | systemd/daemons/daemons.go:49-68 | The loop over wanted units on the list of objects, equal to the engine's; a name that is not loaded is skipped. |
| DaemonObjects.Boot | systemd/daemons/daemons.go:36-71 | From nothing to the end of the first starts: objects are built for any configuration and the wanted units started, and what is left is what the engine's functions say. |
| DaemonObjects.Daemon.ProcessesExited | systemd/daemons/daemon.go:266-347 | The reaction to the exit of a unit's processes, equal to the policy function. |
| DaemonObjects.Daemon.ExitError | systemd/daemons/daemon.go:268-273 | True exactly when some status is a non-zero exit. |
| DaemonObjects.Daemon.PolicyNow | systemd/daemons/daemon.go:278-287 | The policy in force: none when the unit is being stopped or restarted, always when a running unit upholds it, else its own. |
| DaemonObjects.Daemon.WakeUp | systemd/daemons/daemon.go:295-311 | What follows the sleep: nothing if the unit was stopped or the system is going down, else a start. |
| DaemonObjects.Daemon.HandleStopDeps | systemd/daemons/daemon.go:116-129 | Stops every BoundBy unit, then every ConsistsOf unit, on their objects. |
| Shutdown.EveryScheduleBounded | systemd/daemons/daemons.go:73-74 | In every interleaving of any number of goroutines: after the flag is set each launches at most one more command, and at most one more unit per goroutine becomes Running if every unit has an ExecStart line; goroutines with no start in flight do neither. |
| Shutdown.AfterTheFlag | systemd/daemons/daemon.go:704-793 | The same from any reachable state, with the exact allowance: one launch if the goroutine is past the abort check of that command, one unit if it is past its last check. |
| Shutdown.StaysDown | systemd/daemons/daemon.go:418-422 | After the flag, a unit neither Starting nor Running and with no start in flight never becomes Starting or Running again. |
| Shutdown.AllOk | systemd/daemons/daemon.go:414-819 | Every reachable goroutine stack consists of suffixes of units' programs. |
| ShutdownRuns.AloneRunsAll | systemd/daemons/daemon.go:414-819 | A goroutine left alone with a unit that is down, its dependencies up and every answer yes: it launches each condition, ExecStartPre, ExecStart and ExecStartPost line once, raises the unit and nothing else, and its call is over. |
| ShutdownRuns.OneStartAtATime | systemd/daemons/daemon.go:424-434 | In every interleaving, as long as nobody stops or restarts it, a unit is run by at most one of all the calls that ask for it, and is Starting while it is. |
| ShutdownRuns.MaskedStaysDown | systemd/daemons/daemon.go:437-440 | In every interleaving, flag or not, a masked unit that is down and has no start let in stays down and lets none in. |
| ShutdownRuns.NeverFromStopping | systemd/daemons/daemon.go:429-434 | No step of any goroutine takes a unit from Stopping to Starting or Running. |
| ShutdownRuns.RefusedDependency | systemd/daemons/daemon.go:622-680 | A masked dependency under Requires or BindsTo ends the call with nothing more launched; under Wants or Upholds the call goes on. |
| ShutdownRuns.RefusalEnds | systemd/daemons/daemon.go:518-806 | What each answer no leads to, instruction by instruction, dash or no dash. |
| ShutdownRuns.CheckEnds | systemd/daemons/daemon.go:400-412 | The abort check ends the call before the command it stands before. |
| ShutdownRuns.FlagRefuses | systemd/daemons/daemon.go:418-422 | With the flag set a call is refused at the door with an error. |
| Linker.WritesExact | systemd/daemons/daemons.go:261-426 | Exactly which entries the pass has written after any part of any order, for all eighteen relations, Requisite included. |
| Linker.PassExact | systemd/daemons/daemons.go:261-426 | An entry is there after the pass if and only if it was declared or its inverse was declared by a loaded unit, and it points to the list's own object, or to nothing if the name is not loaded; for Requires and Requisite when no unit declares Requisite or RequisiteOf. |
| Linker.PairsCompleted | systemd/daemons/daemons.go:261-426 | The eighteen relations by name: whatever the order, an entry is there if and only if it was declared or the other unit is loaded and declares the opposite relation, and it holds that unit or nothing; Requires, if nobody declares Requisite. |
| Linker.PassIsClosed | systemd/daemons/daemons.go:261-426 | Confluence with a closed form: without Requisite every order gives the same relations. |
| Linker.ClosedIsMutual | systemd/daemons/daemons.go:261-426 | Among loaded units each pair of relations is mutually inverse. |
| Linker.SecondPassIdle | systemd/daemons/daemons.go:261-426 | A second pass, in any order, changes nothing. |
| Linker.ConfluentIff | systemd/daemons/daemons.go:299-316 | With Requisite: for freshly loaded declarations the pass is confluent if and only if every Requisite between loaded units is declared from both sides, or only as RequisiteOf beside a Requires. |
| LinkPass.Daemons.Link | systemd/daemons/daemons.go:261-426 | The nested loops over objects, maps iterated in any order, leave what the pass function says. |
| LinkPass.Daemons.LinkDeclared | systemd/daemons/daemons.go:261-426 | Without Requisite they leave the closed form. |
| LinkPass.Daemons.LinkUnit | systemd/daemons/daemons.go:261-425 | One unit's eighteen loops write exactly the entries of its turn, although they change other units' maps. |
| LinkPass.Daemons.LinkEntry | systemd/daemons/daemons.go:263-271 | One entry: the unit's own and, if the other is loaded, its inverse. |
| UnitFile.Daemon.LoadUnitFile | systemd/daemons/unit.go:12-457 | The single loop equals the two phases: drop comments and join continuations, then interpret logical lines by section; a refused span stops it with an error and the definition so far. |
| UnitFile.Daemon.Obey | systemd/daemons/unit.go:84-454 | One assignment, in place. |
| UnitFile.CommentsChangeNothing | systemd/daemons/unit.go:53-55 | A comment line may stand anywhere, even inside a continuation. |
| UnitFile.UnknownSectionsChangeNothing | systemd/daemons/unit.go:73-82 | A whole unknown section in front of a section or at the end changes nothing. |
| UnitFile.DropInComposes | systemd/daemons/daemons.go:208-247 | Loading two files one after the other equals loading them as one file, if the first loads, ends no open continuation, and the second opens with a header. |
| UnitFile.RelationsSinceReset | systemd/daemons/unit.go:89-98 | After a load each relation holds exactly the names given since its last empty assignment, over all sections that may assign it. |
| UnitLine.PlainValue | systemd/daemons/unit.go:460-476 | A value that is not quoted: the text after the first equals sign without its leading spaces, further equals signs and trailing spaces included; the name in upper case without blanks around it. |
| UnitLine.QuotedValue | systemd/daemons/unit.go:466-475 | A value between double or single quotes: the text inside them. |
| UnitLine.EmptyValue | systemd/daemons/unit.go:460-476 | Nothing but spaces after the equals sign, or no equals sign: the empty value. |
| UnitLine.RightOfEquals | systemd/daemons/unit.go:461-465 | Cutting at equals signs and joining again loses nothing to the right of the first. |
| UnitLine.Headers | systemd/daemons/unit.go:66-82 | Which lines open which section, in any case and with blanks around; other brackets open an unknown one. |
| UnitLine.Comments | systemd/daemons/unit.go:52-55 | A line is a comment if and only if its first character that is no blank is a semicolon or a hash. |
| UnitLine.Continuation | systemd/daemons/unit.go:56-64 | A line that ends in a backslash and the next one read as one, with one space between them. |
| UnitLine.Instances | systemd/daemons/unit.go:347-352 | %i and %I in the commands of pre@inst stand for inst, and for themselves in a unit without an at sign. |
| UnitLine.NamesListed | systemd/daemons/unit.go:95-97 | A list of names joined by single spaces assigns exactly those names. |
| UnitFields.ListsGiven | systemd/daemons/unit.go:347-452 | After a load each list of commands holds what it held and then every value given to it, in order, with the instance put in; the environment lists as they stand. |
| UnitFields.StringsGiven | systemd/daemons/unit.go:336-450 | Every directive kept as it is holds what was last given to it in its own section. |
| UnitFields.ReloadGiven | systemd/daemons/unit.go:389-394 | The reload command last given, with the instance put in. |
| UnitFields.FlagsGiven | systemd/daemons/unit.go:339-344 | RemainAfterExit and StopWhenUnneeded are true if and only if last given as true, in any case. |
| UnitFields.SpansGiven | systemd/daemons/unit.go:395-408 | RestartSec and TimeoutStopSec each hold, in their own field, the last span given, the second under either of its names. |
| UnitFields.LoadsIff | systemd/daemons/unit.go:395-408 | A load goes well if and only if every span given in a service section is one the parser accepts. |
| UnitFields.RefusedSpan | systemd/daemons/unit.go:395-408 | The first one refused ends the load there with its field 0. |
| UnitFile.LogicalConcat | systemd/daemons/unit.go:56-64 | The first phase and its pending continuation go through a file from the front. |
| UnitFile.SectionForgotten | systemd/daemons/unit.go:66-82 | A file that opens with a header does not depend on the section before it. |
| Strings.JoinUndoesSplit | systemd/daemons/unit.go:460-465 | Cutting at a separator and joining again gives the line back. |
| Spelling.Normalise | systemd/daemons/unit.go:491-538 | The loops over the table of replacements equal the chain of passes. |
| Spelling.ChainWord | systemd/daemons/unit.go:495-532 | Each of the known words comes out as its canonical unit: no pass spoils what another made or is to make. |
| Spelling.NormalisedText | systemd/daemons/unit.go:533-538 | On every sequence of numbers and known words, with spaces anywhere, each word becomes its unit and nothing else changes. |
| Spelling.Splits | systemd/daemons/unit.go:534-538 | A pass works on both sides of a number separately, since no occurrence reaches across it. |
| Duration.LeadingInt | systemd/daemons/unit.go:675-693 | Succeeds if and only if the maximal digit prefix denotes at most 2^63, and returns that value and the rest. |
| Duration.LeadingFraction | systemd/daemons/unit.go:695-721 | Returns the value of the digits that fit, 10 to their number, and what follows all digits. |
| Duration.FitIsLongest | systemd/daemons/unit.go:704-718 | The digits that fit are the longest prefix with value at most 2^63. |
| Duration.FractionBracketed | systemd/daemons/unit.go:710-718 | The true fraction lies in [x/scale, (x+1)/scale). |
| Duration.ParseDuration | systemd/daemons/unit.go:479-635 | The whole function, loops and 64-bit arithmetic, equals its functional form. |
| Duration.RunParts | systemd/daemons/unit.go:559-627 | The loop over numbers and units equals its functional form. |
| DurationExact.ParserExactIff | systemd/daemons/unit.go:559-634 | For every sequence of numbers and units, signed or not, and any rounding of fractions: the parser returns the exact sum and refuses exactly the sums out of range, if and only if it does not slip. It slips if a partial sum of exactly 2^63 meets a term of exactly 2^63 and the plain sum of the terms after that is in range or, again, slips. |
| DurationExact.AcceptsIff | systemd/daemons/unit.go:609-634 | What the register accepts, in plain sums: exactly the sequences whose sum is in range, and those that slip. |
| DurationExact.InRangeIsExact | systemd/daemons/unit.go:559-634 | A sum below 2^63 is always returned exactly. |
| DurationExact.ConcatenationAdds | systemd/daemons/unit.go:559-634 | Parsing a concatenation adds the parses. |
| DurationExact.AmountIsTerm | systemd/daemons/unit.go:609-622 | A part is refused exactly when it alone exceeds 2^63; neither the product nor the added fraction wraps. |
| DurationExact.AcceptedIsParts | systemd/daemons/unit.go:559-608 | Everything the loop accepts is a sequence of numbers and known units. |
| DurationExact.SpellingsAgree | systemd/daemons/unit.go:533-538 | However units are spelled and spaces placed, a span parses as in canonical units. |
| DurationExact.DigitsAreSecondsIff | systemd/daemons/unit.go:480-490 | Bare digits N parse like N with the unit s if and only if N is at most 9223372036. |
| DurationExact.SlipExample | systemd/daemons/unit.go:623-626 | Twice 9223372036854775808 ns is accepted as 0. |
| DurationExact.RegisterForgets | systemd/daemons/unit.go:623-626 | Where a sum of 2^63 meets a term of 2^63 the register wraps to 0 and forgets what came before. |
| DurationWords.WordsLast | systemd/daemons/unit.go:723-736 | For every word there is for a unit, in literal nanoseconds: a number and the word, signed or not, is that many, or refused if that does not fit 64 bits. |
| DurationWords.UnitsNest | systemd/daemons/unit.go:723-736 | "1h" parses as "60min", "1day" as "24hours", "1w" as "7d". |
| DurationWords.WithoutUnit | systemd/daemons/unit.go:543-558 | A signed number without a unit is refused unless it is a single 0; a sign or a space alone is refused, and the empty text is 0. |
| DurationWords.BareDigitsWrap | systemd/daemons/unit.go:480-490 | Bare digits are that many seconds, at most 2^63 - 1 of them, in nanoseconds modulo 2^64. |
| Quote.QuoteString | systemd/daemons/unit.go:637-665 | On every byte string the walk over runes equals escaping byte by byte between two quotes, and no index is out of range. |
| Quote.WidthsAgree | systemd/daemons/unit.go:642-650 | The width used for escaping is the width the range loop moves by, also for U+FFFD in the string or in place of a bad byte. |
| Quote.UnescapeRecovers | systemd/daemons/unit.go:651-660 | Unescaping gives the bytes back. |
| Quote.Literally | systemd/daemons/unit.go:637-665 | A quotation mark, a backslash, a newline, a letter and U+00B5, in literal bytes. |
| Quote.QuoteInjective | systemd/daemons/unit.go:637-665 | Different strings are quoted differently. |
| Reaper.EveryScheduleKeeps | procwait/procwait.go:72-186 | Every interleaving of waiters, reapers and kernel, reuse of pids included, keeps the protocol's invariant. |
| Reaper.NoLostWakeup | procwait/procwait.go:72-95 | The process a blocked waiter waits for is unreaped in the kernel or in a reaper's hands, or the latch is open. |
| Reaper.StatusIsTheReportedOne | procwait/procwait.go:77-79 | Every returned status is the one Wait4 reported for the process the entry was made for, as long as no pid in a reaper's hands is reused. |
| Reaper.CarefulIsOrderly | procwait/procwait.go:151-174 | As long as no pid in a reaper's hands is reused, at most one reaper has a pid in hand, never one that is alive, and every latch keeps the status of its own process. |
| Reaper.UnlockedOnce | procwait/procwait.go:168-174 | Each latch is unlocked at most once, and only while write-locked. |
| Reaper.TurnDelivers | procwait/procwait.go:151-174 | One undisturbed turn of an idle reaper lets every waiter blocked on a dead process return its status. |
| Reaper.WaitGetsEntry | procwait/procwait.go:72-95 | A waiter let through ends up at the entry of its pid if there is one, at a fresh locked one if the kernel still has the process, alive or dead, and with nil only if there is neither; nothing else changes. |
| Reaper.NilMeansGone | procwait/procwait.go:82-87 | On every schedule a call that comes back with nil was made of a pid that was gone from the kernel at some point of it. |
| ReaperReuse.GoesWrongIff | procwait/procwait.go:151-174 | With reuse, in every reachable state and for every locked latch: it can still be opened with another process's status, without any further reuse, if and only if another process of its pid is in a reaper's hands, or in the kernel where a second reaper can take it, and its own process is not just being delivered. |
| ReaperReuse.PidReuseBreaks | procwait/procwait.go:166-174 | A schedule from the initial state on which a waiter is handed the status of an earlier process while its own still runs. |
| ReaperReuse.LaterReuseBreaks | procwait/procwait.go:166-174 | A schedule on which no reaper had the pid in hand when the entry was made, and the latch is still opened with another process's status. |
| CommandWait.ReturnedIsReported | procwait/procwait.go:37-69 | In every interleaving a status that Run returns is the one reported for its own child, and a command is reported as not found only after its child's status was reported. |
| CommandReturns.ComesBackIff | procwait/procwait.go:37-69 | In every reachable state, with at least one reaper: a call of Run can still come back on some continuation if and only if it is back, or has no child yet, or its latch is open, its child is unreaped, or some reaper has the child in hand with the command's entry still ahead. |
| CommandReturns.StrandedForEver | procwait/procwait.go:175-182 | Otherwise it waits for ever in every continuation, written cmd.Process or not. |
| CommandReturns.LostExample | procwait/procwait.go:38-46 | It happens, from the initial state: a reaper passes the entry before cmd.Process is written. |
| CommandReturns.UndisturbedRun | procwait/procwait.go:37-69 | A command nobody disturbs returns the status its child exits with, and leaves neither an entry nor a child. |
| FinalReap.FinalReap | procwait/procwait.go:113-144 | Stops at the first number of polls at which time is up, the last poll failed, or the last three found nothing. |
| PidTracker.Pids.Find | systemd/pidtracker/pidtracker.go:39-61 | On any map order: no duplicates, and exactly the strict descendants recorded as children of pid 1, although every level filters. |
| PidTracker.Pids.Add | systemd/pidtracker/pidtracker.go:15-27 | The new map, and exactly the ancestry edges it adds. |
| PidTracker.NestingBoundedIff | systemd/pidtracker/pidtracker.go:46 | The nesting of searches is bounded if and only if no process below the pid is its own ancestor. |
| PidTracker.FindOnlyGrows | systemd/pidtracker/pidtracker.go:15-27 | Recording more never loses a result. |
| Codec.Send | systemctl/main.go:32-46 | The encoder's loop sends the encoding of the arguments after the program name. |
| Codec.Receive | systemd/main.go:178-198 | The decoder's loop equals decoding the received bytes; the rest of the buffer has no influence. |
| Codec.RoundTrip | systemd/main.go:182-198 | Decoding an encoding returns the list, whatever follows it. |
| Codec.StrictPrefixRefused | systemd/main.go:186-195 | Every strict prefix of an encoding is refused. |
| Codec.CutSaysWhy | systemd/main.go:178-195 | Which refusal: too small inside the count, malformed inside a length, a short string inside an argument. |
| Codec.LaidOut | systemctl/main.go:32-43 | Where every byte of an encoding stands: the count, then each length and argument, low bytes first. |
| Codec.DecodedIsPrefix | systemd/main.go:182-198 | Whatever decodes to a list begins with that list's encoding. |
| Codec.TransferIff | systemctl/main.go:34-44 | A list arrives unchanged if and only if its count and lengths are at most 65535 and its encoding at most 65536 bytes. |
| Handshake.Client.Turn | systemctl/main.go:50-73 | One turn of the client's loop. |
| Handshake.EveryScheduleAnswers | systemctl/main.go:49-73 | For output without a zero byte, however it is cut and whoever moves next: the client prints a prefix of it at every point, acknowledges at most once, never dies; the two sides never both wait; after a bounded number of steps the client has printed all and exits with the code's low 16 bits. |
| Handshake.RunKeeps | systemd/main.go:199-211 | The invariant of the exchange, and the measure that every step lowers. |
| Handshake.WireExact | systemd/main.go:199-211 | What is on the wire at every point of every schedule: the rest of the output and its zero byte, then nothing, then the five literal bytes of the signature and the code, low byte first. |
| Handshake.ReadsAnything | systemctl/main.go:50-73 | What the client makes of any read, sound or not. |
| Handshake.AnswersIff | systemd/main.go:199-211 | The exchange is right on every schedule if and only if the output has no zero byte. |

## Left out

- Requisite in the engine: a start with a Requisite that is not running stops with a nil error (`systemd/daemons/daemon.go:604-617`), so it reports success; only linking models Requisite.
- OnFailure and OnSuccess in the engine: they are started while the unit's own lock is held; taken as empty. The link pass models them.
- EngineMonitor.LivesAsItsPolicySays: takes the unit's own restarts to succeed, logs to open, no poweroff action and RemainAfterExit false; the policy functions themselves have none of these limits.
- EngineMonitor.Upheld: an UpheldBy entry whose unit is not loaded is skipped; the code dereferences nil there.
- EngineFailure.StartExact: takes units without Conflicts, logs that open and one fixed outcome per command and condition: a verdict read before the call has to know them.
- EngineFailure.AbortedLaunchesNothing: the same hypotheses; without any of them, EngineOrder.StartOrdered says that a launch needs the success of every hard dependency.
- EngineSettled.RunSettlesIff: which logs a run asks for depends on what its commands return; what can be told beforehand is one way each (`EngineSettled.TouchedLogsOpenSettles`, `EngineSettled.OwnLogStrands`). Logs that open at some times only are covered one stop at a time.
- The collection of pids and statuses at the top of `monitorCmds`, /proc scanning, PID files, and the default RestartSleep: the statuses are given.
- `monitorNeeded`: its `continue` statements only affect its inner loops, so it stops units that are still needed; nothing is claimed.
- Signals sent by a stop and the list of running commands: whether the processes go in time is one answer of the outside world.
- Concurrency in the engine other than shutdown: the sequential theorems are about calls run one at a time; `monitorCmds` reads and writes the state without the lock.
- Shutdown.StaysDown: stop, restart and monitor code appear as writes of Stopped, Stopping or Restarting to any unit at any time, and commands have no duration.
- Acyclic start edges are a hypothesis of every engine theorem: on a cycle the recursion does not end, since the cleanup leaves Stopped while a start is under way.
- Wait4 events for stopped and continued children, which the code ignores, and commands that fail to start.
- CommandWait.ReturnedIsReported: pids are never reused.
- CommandReturns.ComesBackIff: says that some continuation brings the call back, not that every fair one does.
- PidTracker.Pids.Find: the lock is not modelled.
- Masking, enabling, instances as files, directory scanning, environment files, user lookup, loggers, reload of masked or vanished units, and units with no definition at link time.
- float64 rounding of fractions in time spans: any value up to one unit.
- Upper and lower case outside ASCII, the byte length of non-ASCII text, and the 64 KiB line limit of bufio.Scanner.
- Errors of the control socket: reads and writes succeed, and a request arrives in one read.
- `journalctl`, installation, `forkpreload`, command-line dispatch: I/O and user interface.
