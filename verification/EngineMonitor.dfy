/** What happens when the processes of a running unit have exited: the restart policy, one process generation
    after another. The sleep before a restart splits the reaction in two, and other calls may come between. */
module EngineMonitor {
  import opened Graph
  import opened Engine
  import opened EngineSettled
  import opened EngineOrder
  import opened EngineSuccess
  import opened EngineGrowth
  import opened EngineBlock

  /** What waiting for a process returned; Unknown is a process that could not be waited for. */
  datatype Status = Unknown | Exit(code: int)
  {
    predicate Failed() {
      Exit? && code != 0
    }
  }

  predicate AnyFailed(ans: seq<Status>) {
    exists i :: 0 <= i < |ans| && ans[i].Failed()
  }

  datatype Mode = Always | OnFailure | OnSuccess | Never

  function ModeOf(restart: string): Mode {
    if restart == "always" then Always
    else if restart in {"on-failure", "on-abnormal", "on-watchdog", "on-abort"} then OnFailure
    else if restart == "on-success" then OnSuccess
    else Never
  }

  predicate Upheld(c: Config, w: World, d: Name)
    requires d in c.defs
  {
    exists u :: u in c.defs[d].Names(UpheldBy) && w.IsState(u, Running)
  }

  function ModeNow(c: Config, w: World, d: Name): Mode
    requires w.units.Keys == c.defs.Keys && d in w.units
  {
    if w.units[d].state in {Stopped, Stopping, Restarting} then Never
    else if Upheld(c, w, d) then Always
    else ModeOf(c.defs[d].restart)
  }

  predicate PowersOff(def: Def, ans: seq<Status>) {
    "poweroff" <= if AnyFailed(ans) then def.failureAction else def.successAction
  }

  function StopNames(c: Config, w: World, names: seq<Name>): (w': World)
    requires w.units.Keys == c.defs.Keys
    ensures Extends(w, w')
    decreases |names|
  {
    if names == [] then w
    else
      var w1 := Stop(c, w, names[0], true).w;
      var w2 := StopNames(c, w1, names[1..]);
      ExtendsTransitive(w, w1, w2);
      w2
  }

  /** handleStopDeps. */
  function StopDependents(c: Config, w: World, d: Name): (w': World)
    requires w.units.Keys == c.defs.Keys && d in w.units
    ensures Extends(w, w')
  {
    var w1 := StopNames(c, w, c.order(w.log, d, BoundBy));
    var w2 := StopNames(c, w1, c.order(w1.log, d, ConsistsOf));
    ExtendsTransitive(w, w1, w2);
    w2
  }

  function EndRun(c: Config, w: World, d: Name): (w': World)
    requires w.units.Keys == c.defs.Keys && d in w.units
    ensures Extends(w, w')
  {
    StopDependents(c, w.Update(d, w.units[d].(state := Stopped, manual := false)), d)
  }

  datatype Reaction = Ended(w: World) | Asleep(w: World, mode: Mode)

  /** monitorCmds, up to its sleep. */
  function Exited(c: Config, w: World, d: Name, ans: seq<Status>): (r: Reaction)
    requires w.units.Keys == c.defs.Keys && d in w.units
    ensures Extends(w, r.w)
  {
    if PowersOff(c.defs[d], ans) then Ended(Perform(c, w, d, PowerOff).w)
    else Reacted(c, w, d, ModeNow(c, w, d), AnyFailed(ans))
  }

  function Reacted(c: Config, w: World, d: Name, mode: Mode, failed: bool): (r: Reaction)
    requires w.units.Keys == c.defs.Keys && d in w.units
    ensures Extends(w, r.w)
  {
    var remain := w.units[d].remain;
    var w1 := w.SetFailed(d, failed);
    match mode
    case Always => Asleep(w.SetState(d, Restarting), Always)
    case OnFailure =>
      if failed then Asleep(w1.SetState(d, Restarting), OnFailure)
      else Ended(if remain then w1 else EndRun(c, w1, d))
    case OnSuccess =>
      if failed then Ended(EndRun(c, w1, d))
      else if remain then Ended(w1)
      else Asleep(w1.SetState(d, Restarting), OnSuccess)
    case Never =>
      var w2 := if failed then w1 else w;
      Ended(if remain && !w2.units[d].failed then w2 else EndRun(c, w2, d))
  }

  /** monitorCmds, from the end of its sleep. */
  function Woken(c: Config, w: World, d: Name, mode: Mode): (w': World)
    requires c.Valid() && w.units.Keys == c.defs.Keys && d in w.units
    ensures Extends(w, w')
  {
    if w.shutdown || w.IsState(d, Stopped) then w
    else
      var w1 := if mode.Always? then w.SetFailed(d, false) else w;
      var o := Start(c, w1, d, w1.units[d].manual);
      if o.ok || !mode.OnSuccess? then o.w
      else
        var w2 := StopDependents(c, o.w, d);
        ExtendsTransitive(w, o.w, w2);
        w2
  }

  /** A unit's life from Running on, given how the processes of each generation exit. */
  function Live(c: Config, w: World, d: Name, gens: seq<seq<Status>>): (w': World)
    requires c.Valid() && w.units.Keys == c.defs.Keys && d in w.units
    ensures Extends(w, w')
    decreases |gens|
  {
    if gens == [] || !w.IsState(d, Running) then w
    else
      match Exited(c, w, d, gens[0])
      case Ended(w1) => w1
      case Asleep(w1, mode) =>
        var w2 := Woken(c, w1, d, mode);
        var w3 := Live(c, w2, d, gens[1..]);
        ExtendsTransitive(w, w1, w2);
        ExtendsTransitive(w, w2, w3);
        w3
  }

  // ---- what a life should be

  /** Whether a Restart= word asks for a restart after these exits; any other word, and none, does not. */
  predicate WordAsks(word: string, ans: seq<Status>) {
    var failed := exists i :: 0 <= i < |ans| && ans[i].Exit? && ans[i].code != 0;
    || word == "always"
    || (word in {"on-failure", "on-abnormal", "on-watchdog", "on-abort"} && failed)
    || (word == "on-success" && !failed)
  }

  /** The policy as its documentation puts it: does a generation that exits like this get a successor? */
  predicate Successor(c: Config, w: World, d: Name, ans: seq<Status>)
    requires d in c.defs
  {
    Upheld(c, w, d) || WordAsks(c.defs[d].restart, ans)
  }

  /** The world once a generation's exit, and the restart that may follow, are over. */
  function After(c: Config, w: World, d: Name, ans: seq<Status>): (w': World)
    requires c.Valid() && w.units.Keys == c.defs.Keys && d in w.units
    ensures Extends(w, w')
  {
    match Exited(c, w, d, ans)
    case Ended(w1) => w1
    case Asleep(w1, mode) =>
      var w2 := Woken(c, w1, d, mode);
      ExtendsTransitive(w, w1, w2);
      w2
  }

  /** The world in which generation i exits. */
  function WorldAt(c: Config, w: World, d: Name, gens: seq<seq<Status>>, i: nat): (w': World)
    requires c.Valid() && w.units.Keys == c.defs.Keys && d in w.units && i <= |gens|
    ensures Extends(w, w')
    decreases i
  {
    if i == 0 then w
    else
      var w1 := After(c, w, d, gens[0]);
      var w2 := WorldAt(c, w1, d, gens[1..], i - 1);
      ExtendsTransitive(w, w1, w2);
      w2
  }

  /** How many of these generations get a successor before one does not, each judged in the world it exits in. */
  function Successors(c: Config, w: World, d: Name, gens: seq<seq<Status>>): (k: nat)
    requires c.Valid() && w.units.Keys == c.defs.Keys && d in w.units
    ensures k <= |gens|
    decreases |gens|
  {
    if gens == [] || !Successor(c, w, d, gens[0]) then 0 else 1 + Successors(c, After(c, w, d, gens[0]), d, gens[1..])
  }

  /** The unit's own restarts succeed: each wake-up that the policy asks for leaves it Running. */
  ghost predicate Rises(c: Config, w: World, d: Name, gens: seq<seq<Status>>)
    requires c.Valid() && w.units.Keys == c.defs.Keys && d in w.units
  {
    forall j :: 0 < j <= Successors(c, w, d, gens) ==> WorldAt(c, w, d, gens, j).IsState(d, Running)
  }

  function Times(lines: seq<Act>, k: nat): seq<Act> {
    if k == 0 then [] else lines + Times(lines, k - 1)
  }

  /** No poweroff action, and nothing remains after exit. */
  ghost predicate Ordinary(c: Config, w: World, d: Name) {
    && d in c.defs && d in w.units && !w.units[d].remain && !c.defs[d].oneshot
    && !("poweroff" <= c.defs[d].successAction) && !("poweroff" <= c.defs[d].failureAction)
  }

  ghost predicate Alive(c: Config, w: World, d: Name) {
    Usable(c, w) && Ordinary(c, w, d) && w.IsState(d, Running)
  }

  // ---- a start from Restarting is a start from Stopped

  /** Worlds that differ at most in the state of d, which is not running in either. */
  ghost predicate Twins(w: World, w': World, d: Name) {
    && w.units.Keys == w'.units.Keys && w.masked == w'.masked && w.shutdown == w'.shutdown && w.log == w'.log
    && d in w.units && !w.IsState(d, Running) && !w'.IsState(d, Running)
    && w.units[d].(state := Stopped) == w'.units[d].(state := Stopped)
    && forall x :: x in w.units && x != d ==> w'.units[x] == w.units[x]
  }

  lemma TwinsMeet(w: World, w': World, d: Name, s: DaemonState)
    requires Twins(w, w', d)
    ensures w.SetState(d, s) == w'.SetState(d, s)
  {
    assert w.units[d := w.units[d].(state := s)] == w'.units[d := w'.units[d].(state := s)];
  }

  lemma TwinsSet(w: World, w': World, d: Name, s: DaemonState)
    requires Twins(w, w', d) && s != Running
    ensures Twins(w, w'.SetState(d, s), d)
  {
  }

  lemma TwinsAct(c: Config, w: World, w': World, d: Name, act: Act)
    requires Twins(w, w', d)
    ensures Twins(Perform(c, w, d, act).w, Perform(c, w', d, act).w, d)
    ensures Perform(c, w, d, act).ok == Perform(c, w', d, act).ok
  {
    assert forall x :: w.IsState(x, Running) <==> w'.IsState(x, Running);
    assert w.RunningUnits() == w'.RunningUnits();
  }

  lemma {:induction false} TwinsStopLines(c: Config, w: World, w': World, d: Name, phase: Phase, lines: seq<string>)
    requires Twins(w, w', d)
    ensures Twins(RunStopLines(c, w, d, phase, lines), RunStopLines(c, w', d, phase, lines), d)
    decreases |lines|
  {
    if lines != [] {
      var act := Command(phase, lines[0]);
      TwinsAct(c, w, w', d, act);
      var o, o' := Perform(c, w, d, act), Perform(c, w', d, act);
      TwinsStopLines(c, if o.ok then o.w else o.w.SetFailed(d, true),
                     if o.ok then o'.w else o'.w.SetFailed(d, true), d, phase, lines[1..]);
    }
  }

  lemma TwinsStop(c: Config, w: World, w': World, d: Name)
    requires Twins(w, w', d) && w.units.Keys == c.defs.Keys
    ensures Twins(RunStop(c, w, d), RunStop(c, w', d), d)
  {
    var def := c.defs[d];
    TwinsStopLines(c, w, w', d, ExecStopPre, def.stopPre);
    var w1, w1' := RunStopLines(c, w, d, ExecStopPre, def.stopPre), RunStopLines(c, w', d, ExecStopPre, def.stopPre);
    TwinsStopLines(c, w1, w1', d, ExecStop, def.stop);
    var w2, w2' := RunStopLines(c, w1, d, ExecStop, def.stop), RunStopLines(c, w1', d, ExecStop, def.stop);
    TwinsStopLines(c, w2, w2', d, ExecStopPost, def.stopPost);
    TwinsAwait(c, RunStopLines(c, w2, d, ExecStopPost, def.stopPost),
               RunStopLines(c, w2', d, ExecStopPost, def.stopPost), d);
  }

  lemma TwinsAwait(c: Config, w: World, w': World, d: Name)
    requires Twins(w, w', d)
    ensures var o, o' := Perform(c, w, d, AwaitExit), Perform(c, w', d, AwaitExit);
            Twins(if o.ok then o.w else o.w.SetFailed(d, true), if o'.ok then o'.w else o'.w.SetFailed(d, true), d)
  {
    TwinsAct(c, w, w', d, AwaitExit);
  }

  /** The cleanup before a start comes to the same whether the unit was Restarting or on its way from Stopped. */
  lemma CleanUpSame(c: Config, w: World, w': World, d: Name)
    requires w.units.Keys == c.defs.Keys && d in w.units && d !in w.masked && !w.shutdown
    requires w.IsState(d, Restarting) && w'.IsState(d, Starting) && Twins(w, w', d) && c.outcome(w.log, d, OpenLog)
    ensures CleanUp(c, w, d) == CleanUp(c, w', d)
  {
    CleanUpUnfolds(c, w, d);
    CleanUpUnfolds(c, w', d);
    var s := w'.SetState(d, Stopping);
    TwinsSet(w, w', d, Stopping);
    TwinsAct(c, w, s, d, OpenLog);
    var a, b := Perform(c, w, d, OpenLog).w, Perform(c, s, d, OpenLog).w;
    TwinsStop(c, a, b, d);
    TwinsMeet(RunStop(c, a, d), RunStop(c, b, d), d, Stopped);
  }

  lemma EntryTwins(c: Config, w: World, d: Name, manual: bool)
    requires w.units.Keys == c.defs.Keys && w.IsState(d, Restarting)
    ensures Twins(Begin(c, w.Note(Enter(d)), d, manual), Begin(c, w.SetState(d, Stopped).Note(Enter(d)), d, manual), d)
  {
  }

  lemma RestartingAsStopped(c: Config, w: World, d: Name, manual: bool)
    requires Ready(c, w) && d in w.units && d !in w.masked && w.IsState(d, Restarting)
    ensures Start(c, w, d, manual) == Start(c, w.SetState(d, Stopped), d, manual)
  {
    var w' := w.SetState(d, Stopped);
    StartUnfolds(c, w, d, manual);
    StartUnfolds(c, w', d, manual);
    EntryTwins(c, w, d, manual);
    CleanUpSame(c, Begin(c, w.Note(Enter(d)), d, manual), Begin(c, w'.Note(Enter(d)), d, manual), d);
  }

  // ---- a start marks as remaining after exit only oneshot units

  ghost predicate RemainFrom(c: Config, w: World, w': World) {
    forall x :: x in c.defs && x in w.units && x in w'.units && w'.units[x].remain ==> w.units[x].remain || c.defs[x].oneshot
  }

  lemma {:induction false} StopLinesRemain(c: Config, w: World, d: Name, phase: Phase, lines: seq<string>)
    requires d in w.units
    ensures RunStopLines(c, w, d, phase, lines).units[d].remain == w.units[d].remain
    decreases |lines|
  {
    if lines != [] {
      var o := Perform(c, w, d, Command(phase, lines[0]));
      StopLinesRemain(c, if o.ok then o.w else o.w.SetFailed(d, true), d, phase, lines[1..]);
    }
  }

  lemma RunStopRemain(c: Config, w: World, d: Name)
    requires w.units.Keys == c.defs.Keys && d in w.units
    ensures RunStop(c, w, d).units[d].remain == w.units[d].remain
  {
    var w1 := RunStopLines(c, w, d, ExecStopPre, c.defs[d].stopPre);
    StopLinesRemain(c, w, d, ExecStopPre, c.defs[d].stopPre);
    var w2 := RunStopLines(c, w1, d, ExecStop, c.defs[d].stop);
    StopLinesRemain(c, w1, d, ExecStop, c.defs[d].stop);
    StopLinesRemain(c, w2, d, ExecStopPost, c.defs[d].stopPost);
  }

  lemma StopRemain(c: Config, w: World, x: Name, announce: bool)
    requires w.units.Keys == c.defs.Keys
    ensures RemainFrom(c, w, Stop(c, w, x, announce).w)
  {
    if x in w.units && x !in w.masked {
      var w1 := if !w.IsState(x, Restarting) || announce then w.SetState(x, Stopping) else w;
      RunStopRemain(c, Perform(c, w1, x, OpenLog).w, x);
    }
  }

  lemma RunRemain(c: Config, w: World, d: Name, phase: Phase, line: string)
    requires w.units.Keys == c.defs.Keys && d in w.units
    ensures RemainFrom(c, w, RunCommand(c, w, d, phase, line).After())
  {
    hide Stop;
    StopRemain(c, Perform(c, w, d, Command(phase, Bare(line))).w, d, true);
  }

  lemma GiveUpRemains(c: Config, w: World, w': World, d: Name)
    requires RemainFrom(c, w, w') && d in w'.units
    ensures RemainFrom(c, w, w'.Fail(d))
  {
  }

  lemma ActRemain(c: Config, w: World, d: Name, i: Instr)
    requires c.Valid() && w.units.Keys == c.defs.Keys && d in w.units && Legal(c, d, [i])
    requires i.Prepare? || i.AttachLog? || i.Condition? || i.Finish?
    ensures RemainFrom(c, w, Step(c, w, d, i).After())
  {
  }

  lemma {:induction false} StepRemain(c: Config, w: World, d: Name, i: Instr)
    requires c.Valid() && w.units.Keys == c.defs.Keys && d in w.units && Legal(c, d, [i])
    ensures RemainFrom(c, w, Step(c, w, d, i).After())
    decreases Rank(c.Edges(), d), 0, 0
  {
    hide Start, Stop, RunCommand, RemainFrom;
    match i {
      case Depend(r, hard) =>
        assert Edge(c.Edges(), d, [i][0].dep);
        RankDecreases(c.Edges(), d, r);
        StartRemain(c, w, r, false);
        GiveUpRemains(c, w, Start(c, w, r, false).w, d);
      case Conflict(x) =>
        StopRemain(c, w, x, true);
        GiveUpRemains(c, w, Stop(c, w, x, true).w, d);
      case Run(phase, line) => RunRemain(c, w, d, phase, line);
      case _ => ActRemain(c, w, d, i);
    }
  }

  lemma {:induction false} ExecRemain(c: Config, w: World, d: Name, p: Program)
    requires c.Valid() && w.units.Keys == c.defs.Keys && d in w.units && Legal(c, d, p)
    ensures RemainFrom(c, w, Exec(c, w, d, p).w)
    decreases Rank(c.Edges(), d), 0, |p|
  {
    if p != [] && !(p[0].Guarded() && Aborted(w, d)) && !p[0].Finish? {
      StepRemain(c, w, d, p[0]);
      var s := Step(c, w, d, p[0]);
      if s.Continue? {
        ExecContinues(c, w, d, p);
        ExecRemain(c, s.w, d, p[1..]);
      } else {
        ExecReturns(c, w, d, p);
      }
    }
  }

  lemma EntryRemain(c: Config, w: World, d: Name, manual: bool)
    requires w.units.Keys == c.defs.Keys && d in w.units
    ensures RemainFrom(c, w, CleanUp(c, Begin(c, w.Note(Enter(d)), d, manual), d).After())
  {
    var b := Begin(c, w.Note(Enter(d)), d, manual);
    assert RemainFrom(c, w, b);
    StopRemain(c, b, d, false);
  }

  lemma RefusedRemain(c: Config, w: World, d: Name, manual: bool)
    requires c.Valid() && w.units.Keys == c.defs.Keys
    requires !(d in w.units && !w.shutdown && d !in w.masked && w.units[d].state in {Stopped, Restarting})
    ensures RemainFrom(c, w, Start(c, w, d, manual).w)
  {
    hide CleanUp, Begin, Exec;
  }

  lemma {:induction false} StartRemain(c: Config, w: World, d: Name, manual: bool)
    requires c.Valid() && w.units.Keys == c.defs.Keys
    ensures RemainFrom(c, w, Start(c, w, d, manual).w)
    decreases Rank(c.Edges(), d), 1, 0
  {
    hide Start, CleanUp, Begin, Exec;
    if d in w.units && !w.shutdown && d !in w.masked && w.units[d].state in {Stopped, Restarting} {
      StartUnfolds(c, w, d, manual);
      EntryRemain(c, w, d, manual);
      var s := CleanUp(c, Begin(c, w.Note(Enter(d)), d, manual), d);
      if s.Continue? {
        ExecRemain(c, s.w, d, ProgramOf(c, w.log + [Enter(d)], d));
      }
    } else {
      RefusedRemain(c, w, d, manual);
    }
  }

  // ---- one relaunch

  /** A generation with a successor: if the unit is Running after the wake-up, it ran its ExecStart lines once
      more in between, whatever happened to other units. */
  lemma NextGeneration(c: Config, w: World, d: Name, ans: seq<Status>)
    requires Alive(c, w, d) && Successor(c, w, d, ans) && After(c, w, d, ans).IsState(d, Running)
    ensures Exited(c, w, d, ans).Asleep? && Alive(c, After(c, w, d, ans), d)
    ensures RanSince(w, After(c, w, d, ans), d) == Block(c.defs[d])
  {
    hide Start, Ran;
    FallsAsleep(c, w, d, ans);
    var r := Exited(c, w, d, ans);
    var w1 := if r.mode.Always? then r.w.SetFailed(d, false) else r.w;
    var manual := w1.units[d].manual;
    WakesByStart(c, r.w, d, r.mode);
    RanNoLog(w, w1, d);
    StartRunsBlock(c, w1, d, manual);
    StartRemain(c, w1, d, manual);
    RanSinceComposes(w, w1, Start(c, w1, d, manual).w, d);
  }

  lemma FallsAsleep(c: Config, w: World, d: Name, ans: seq<Status>)
    requires Alive(c, w, d) && Successor(c, w, d, ans)
    ensures var r := Exited(c, w, d, ans);
            && r.Asleep? && r.w.IsState(d, Restarting) && r.w.log == w.log && !r.w.units[d].remain
  {
  }

  /** A wake-up that leaves its unit Running was a start that did. */
  lemma WakesByStart(c: Config, w: World, d: Name, mode: Mode)
    requires Usable(c, w) && w.IsState(d, Restarting) && Woken(c, w, d, mode).IsState(d, Running)
    ensures var w1 := if mode.Always? then w.SetFailed(d, false) else w;
            Woken(c, w, d, mode) == Start(c, w1, d, w1.units[d].manual).w
  {
    hide Start;
    var w1 := if mode.Always? then w.SetFailed(d, false) else w;
    var o := Start(c, w1, d, w1.units[d].manual);
    if !o.ok && mode.OnSuccess? {
      FailedStartStaysDown(c, w1, d, w1.units[d].manual);
      StopDependentsRaisesNothing(c, o.w, d);
      assert false;
    }
  }

  /** A start that fails does not leave its unit Running. */
  lemma FailedStartStaysDown(c: Config, w: World, d: Name, manual: bool)
    requires Usable(c, w) && w.IsState(d, Restarting) && !Start(c, w, d, manual).ok
    ensures !Start(c, w, d, manual).w.IsState(d, Running)
  {
    if !w.shutdown && d !in w.masked {
      StartUnfolds(c, w, d, manual);
      EntryStaysDown(c, w, d, manual);
      var s := CleanUp(c, Begin(c, w.Note(Enter(d)), d, manual), d);
      if s.Continue? {
        FailedExecStaysDown(c, s.w, d, ProgramOf(c, w.log + [Enter(d)], d));
      }
    }
  }

  lemma {:induction false} FailedExecStaysDown(c: Config, w: World, d: Name, p: Program)
    requires Usable(c, w) && d in w.units && Legal(c, d, p) && !w.IsState(d, Running) && !Exec(c, w, d, p).ok
    ensures !Exec(c, w, d, p).w.IsState(d, Running)
    decreases |p|
  {
    if p != [] && !(p[0].Guarded() && Aborted(w, d)) && !p[0].Finish? {
      StepStaysDown(c, w, d, p[0]);
      var s := Step(c, w, d, p[0]);
      if s.Continue? {
        ExecContinues(c, w, d, p);
        FailedExecStaysDown(c, s.w, d, p[1..]);
      } else {
        ExecReturns(c, w, d, p);
      }
    }
  }

  lemma {:induction false} StopNamesRaisesNothing(c: Config, w: World, names: seq<Name>, x: Name)
    requires w.units.Keys == c.defs.Keys && !w.IsState(x, Running)
    ensures !StopNames(c, w, names).IsState(x, Running)
    decreases |names|
  {
    if names != [] {
      StopNamesRaisesNothing(c, Stop(c, w, names[0], true).w, names[1..], x);
    }
  }

  lemma StopDependentsRaisesNothing(c: Config, w: World, d: Name)
    requires w.units.Keys == c.defs.Keys && d in w.units && !w.IsState(d, Running)
    ensures !StopDependents(c, w, d).IsState(d, Running)
  {
    StopNamesRaisesNothing(c, w, c.order(w.log, d, BoundBy), d);
    var w1 := StopNames(c, w, c.order(w.log, d, BoundBy));
    StopNamesRaisesNothing(c, w1, c.order(w1.log, d, ConsistsOf), d);
  }

  // ---- the last generation

  lemma {:induction false} StopNamesStops(c: Config, w: World, names: seq<Name>, x: Name)
    requires w.units.Keys == c.defs.Keys && LogsOpen(c) && x in w.units
    ensures var w' := StopNames(c, w, names);
            && (x in names && x !in w.masked ==> w'.IsState(x, Stopped))
            && (w.IsState(x, Stopped) ==> w'.IsState(x, Stopped))
    decreases |names|
  {
    if names != [] {
      StopNamesStops(c, Stop(c, w, names[0], true).w, names[1..], x);
    }
  }

  lemma {:induction false} StopNamesManual(c: Config, w: World, names: seq<Name>, x: Name)
    requires w.units.Keys == c.defs.Keys && x in w.units && !w.units[x].manual
    ensures !StopNames(c, w, names).units[x].manual
    decreases |names|
  {
    if names != [] {
      StopKeepsManual(c, w, names[0], x);
      StopNamesManual(c, Stop(c, w, names[0], true).w, names[1..], x);
    }
  }

  lemma StopKeepsManual(c: Config, w: World, n: Name, x: Name)
    requires w.units.Keys == c.defs.Keys && x in w.units
    ensures Stop(c, w, n, true).w.units[x].manual == w.units[x].manual
  {
    if x == n && n !in w.masked {
      var w1 := Perform(c, w.SetState(n, Stopping), n, OpenLog).w;
      var def := c.defs[n];
      StopLinesManual(c, w1, n, ExecStopPre, def.stopPre);
      var w2 := RunStopLines(c, w1, n, ExecStopPre, def.stopPre);
      StopLinesManual(c, w2, n, ExecStop, def.stop);
      StopLinesManual(c, RunStopLines(c, w2, n, ExecStop, def.stop), n, ExecStopPost, def.stopPost);
    }
  }

  lemma {:induction false} StopLinesManual(c: Config, w: World, d: Name, phase: Phase, lines: seq<string>)
    requires d in w.units
    ensures RunStopLines(c, w, d, phase, lines).units[d].manual == w.units[d].manual
    decreases |lines|
  {
    if lines != [] {
      var o := Perform(c, w, d, Command(phase, lines[0]));
      StopLinesManual(c, if o.ok then o.w else o.w.SetFailed(d, true), d, phase, lines[1..]);
    }
  }

  lemma {:induction false} StopNamesRanNothing(c: Config, w: World, names: seq<Name>, x: Name)
    requires w.units.Keys == c.defs.Keys
    ensures RanSince(w, StopNames(c, w, names), x) == []
    decreases |names|
  {
    if names == [] {
      RanNoLog(w, w, x);
    } else {
      StopRanNothing(c, w, names[0], true, x);
      var w1 := Stop(c, w, names[0], true).w;
      StopNamesRanNothing(c, w1, names[1..], x);
      RanSinceComposes(w, w1, StopNames(c, w1, names[1..]), x);
    }
  }

  /** The end of a run: d is Stopped and no longer counts as started by hand, every loaded and unmasked unit
      bound to it or part of it is Stopped, and nothing was launched. */
  ghost predicate Over(c: Config, w: World, d: Name) {
    && w.IsState(d, Stopped) && d in c.defs && !w.units[d].manual
    && forall x :: x in c.defs[d].Names(BoundBy) + c.defs[d].Names(ConsistsOf) && x in w.units && x !in w.masked ==>
         w.IsState(x, Stopped)
  }

  lemma EndRunIsOver(c: Config, w: World, d: Name)
    requires c.Valid() && LogsOpen(c) && w.units.Keys == c.defs.Keys && d in w.units
    ensures Over(c, EndRun(c, w, d), d) && RanSince(w, EndRun(c, w, d), d) == []
  {
    var w1 := w.Update(d, w.units[d].(state := Stopped, manual := false));
    var bound := c.order(w1.log, d, BoundBy);
    var w2 := StopNames(c, w1, bound);
    var parts := c.order(w2.log, d, ConsistsOf);
    var w3 := StopNames(c, w2, parts);
    StopNamesManual(c, w1, bound, d);
    StopNamesManual(c, w2, parts, d);
    StopNamesRanNothing(c, w1, bound, d);
    StopNamesRanNothing(c, w2, parts, d);
    RanSinceComposes(w, w2, w3, d);
    forall x | x in w.units
      ensures x == d || (x in bound && x !in w.masked) || (x in parts && x !in w.masked) ==> w3.IsState(x, Stopped)
    {
      StopNamesStops(c, w1, bound, x);
      StopNamesStops(c, w2, parts, x);
    }
  }

  lemma LastGeneration(c: Config, w: World, d: Name, ans: seq<Status>)
    requires Alive(c, w, d) && LogsOpen(c) && !Successor(c, w, d, ans)
    ensures var r := Exited(c, w, d, ans);
            r.Ended? && Over(c, r.w, d) && RanSince(w, r.w, d) == []
  {
    hide EndRun;
    EndRunIsOver(c, w.SetFailed(d, AnyFailed(ans)), d);
    EndRunIsOver(c, w, d);
  }

  // ---- whole lives

  lemma WorldAtNext(c: Config, w: World, d: Name, gens: seq<seq<Status>>, j: nat)
    requires Usable(c, w) && d in w.units && j < |gens|
    ensures WorldAt(c, w, d, gens, j + 1) == WorldAt(c, After(c, w, d, gens[0]), d, gens[1..], j)
  {
  }

  /** The generations before the count have a successor, and the one at the count has none. */
  lemma {:induction false} SuccessorsExact(c: Config, w: World, d: Name, gens: seq<seq<Status>>)
    requires Usable(c, w) && d in w.units
    ensures var k := Successors(c, w, d, gens);
            && (forall i :: 0 <= i < k ==> Successor(c, WorldAt(c, w, d, gens, i), d, gens[i]))
            && (k < |gens| ==> !Successor(c, WorldAt(c, w, d, gens, k), d, gens[k]))
    decreases |gens|
  {
    hide After, Successor;
    if gens != [] && Successor(c, w, d, gens[0]) {
      var k, w1 := Successors(c, w, d, gens), After(c, w, d, gens[0]);
      SuccessorsExact(c, w1, d, gens[1..]);
      WorldAtNext(c, w, d, gens, k - 1);
      forall i | 0 < i < k
        ensures Successor(c, WorldAt(c, w, d, gens, i), d, gens[i])
      {
        WorldAtNext(c, w, d, gens, i - 1);
        assert gens[i] == gens[1..][i - 1];
      }
    }
  }

  /** Over every sequence of generations, whatever happens to other units, as long as the unit's own restarts
      succeed: it is launched again exactly as often as its policy asks, running its whole ExecStart block
      each time; it is Running as long as there are generations, and when one has no successor its run is over. */
  lemma {:induction false} LivesAsItsPolicySays(c: Config, w: World, d: Name, gens: seq<seq<Status>>)
    requires Alive(c, w, d) && LogsOpen(c) && Rises(c, w, d, gens)
    ensures var k := Successors(c, w, d, gens);
            var w' := Live(c, w, d, gens);
            && RanSince(w, w', d) == Times(Block(c.defs[d]), k)
            && (if k == |gens| then w'.IsState(d, Running) else Over(c, w', d))
    decreases |gens|
  {
    hide Ran, Exited, Woken, Over, Successor;
    if gens == [] {
      RanNoLog(w, w, d);
    } else if Successor(c, w, d, gens[0]) {
      var w1 := After(c, w, d, gens[0]);
      RisesOn(c, w, d, gens);
      NextGeneration(c, w, d, gens[0]);
      LivesAsItsPolicySays(c, w1, d, gens[1..]);
      RanSinceComposes(w, w1, Live(c, w1, d, gens[1..]), d);
    } else {
      LastGeneration(c, w, d, gens[0]);
    }
  }

  lemma RisesOn(c: Config, w: World, d: Name, gens: seq<seq<Status>>)
    requires Usable(c, w) && d in w.units && gens != [] && Successor(c, w, d, gens[0]) && Rises(c, w, d, gens)
    ensures var w1 := After(c, w, d, gens[0]); w1.IsState(d, Running) && Rises(c, w1, d, gens[1..])
  {
    hide After, Successor;
    var w1 := After(c, w, d, gens[0]);
    WorldAtNext(c, w, d, gens, 0);
    forall j | 0 < j <= Successors(c, w1, d, gens[1..])
      ensures WorldAt(c, w1, d, gens[1..], j).IsState(d, Running)
    {
      WorldAtNext(c, w, d, gens, j);
    }
  }

  // ---- what upholding and the policies come to

  /** A unit that nobody upholds is launched again as its Restart= word asks: for always without end, for
      on-failure and its kin up to the first generation without a failure, for on-success up to the first with
      one, for any other word never. */
  lemma {:induction false} PolicyAlone(c: Config, w: World, d: Name, gens: seq<seq<Status>>)
    requires Usable(c, w) && d in w.units && c.defs[d].Names(UpheldBy) == {}
    ensures var k, word := Successors(c, w, d, gens), c.defs[d].restart;
            && (word == "always" ==> k == |gens|)
            && (word in {"on-failure", "on-abnormal", "on-watchdog", "on-abort"} ==>
                  && (forall i :: 0 <= i < k ==> AnyFailed(gens[i]))
                  && (k < |gens| ==> !AnyFailed(gens[k])))
            && (word == "on-success" ==>
                  && (forall i :: 0 <= i < k ==> !AnyFailed(gens[i]))
                  && (k < |gens| ==> AnyFailed(gens[k])))
            && (word !in {"always", "on-failure", "on-abnormal", "on-watchdog", "on-abort", "on-success"} ==> k == 0)
  {
    hide WorldAt;
    SuccessorsExact(c, w, d, gens);
    forall i | 0 <= i < |gens|
      ensures Successor(c, WorldAt(c, w, d, gens, i), d, gens[i]) == WordAsks(c.defs[d].restart, gens[i])
    {
    }
  }

  /** Where nothing conflicts, a unit upheld by another unit that is Running never stops while its restarts
      succeed: every generation has a successor. */
  lemma {:induction false} UpheldForEver(c: Config, w: World, d: Name, gens: seq<seq<Status>>, u: Name)
    requires Alive(c, w, d) && NoConflicts(c) && Rises(c, w, d, gens)
    requires u in c.defs[d].Names(UpheldBy) && u != d && w.IsState(u, Running)
    ensures Successors(c, w, d, gens) == |gens|
    decreases |gens|
  {
    if gens != [] {
      var w1 := After(c, w, d, gens[0]);
      RisesOn(c, w, d, gens);
      NextGeneration(c, w, d, gens[0]);
      OthersStayUp(c, w, d, gens[0], u);
      UpheldForEver(c, w1, d, gens[1..], u);
    }
  }

  lemma OthersStayUp(c: Config, w: World, d: Name, ans: seq<Status>, u: Name)
    requires Alive(c, w, d) && NoConflicts(c) && Successor(c, w, d, ans) && After(c, w, d, ans).IsState(d, Running)
    requires u != d && w.IsState(u, Running)
    ensures After(c, w, d, ans).IsState(u, Running)
  {
    hide Start;
    FallsAsleep(c, w, d, ans);
    var r := Exited(c, w, d, ans);
    var w1 := if r.mode.Always? then r.w.SetFailed(d, false) else r.w;
    WakesByStart(c, r.w, d, r.mode);
    assert u in w1.RunningUnits();
    StartGrows(c, w1, d, w1.units[d].manual);
  }

  /** Where nothing conflicts and relations are linked, starting a unit changes for none of the units that uphold
      it whether it is Running, since start edges are acyclic. */
  lemma UpholdersStay(c: Config, w: World, d: Name, manual: bool, u: Name)
    requires Usable(c, w) && NoConflicts(c) && u in c.defs && d in c.defs[u].Names(Upholds)
    ensures Start(c, w, d, manual).w.IsState(u, Running) <==> w.IsState(u, Running)
  {
    StartGrows(c, w, d, manual);
    StartRaises(c, w, d, manual);
    assert w.IsState(u, Running) ==> u in w.RunningUnits();
    assert Edge(c.Edges(), u, d);
    NotBehind(c, u, d);
  }
}
