/** What a restart is: the unit's stop, and after it one start of the unit, whose result it returns. */
module EngineRestart {
  import opened Graph
  import opened Engine
  import opened EngineActs
  import opened EngineSettled
  import opened EngineOrder
  import opened EngineSuccess
  import opened EngineBlock

  /** A start of x begins or ends with this event. */
  predicate Visits(e: Event, x: Name) {
    (e.Enter? || e.Returned?) && e.d == x
  }

  /** No start of x begins or ends between w and w'. */
  ghost predicate Unvisited(w: World, w': World, x: Name) {
    w.log <= w'.log && forall i :: |w.log| <= i < |w'.log| ==> !Visits(w'.log[i], x)
  }

  lemma UnvisitedComposes(w0: World, w1: World, w2: World, x: Name)
    requires Unvisited(w0, w1, x) && Unvisited(w1, w2, x)
    ensures Unvisited(w0, w2, x)
  {
    forall i | |w0.log| <= i < |w2.log|
      ensures !Visits(w2.log[i], x)
    {
      if i < |w1.log| {
        assert w1.log[i] == w2.log[i];
      }
    }
  }

  lemma StopUnvisited(c: Config, w: World, d: Name, announce: bool, x: Name)
    requires w.units.Keys == c.defs.Keys
    ensures Unvisited(w, Stop(c, w, d, announce).w, x)
  {
    hide RunStop, StopDeeds;
    if d in w.units && d !in w.masked && c.outcome(w.log, d, OpenLog) {
      StopDoes(c, w, d, announce);
    }
  }

  // ---- no nested start comes back to its unit

  lemma RunUnvisited(c: Config, w: World, d: Name, phase: Phase, line: string, x: Name)
    requires w.units.Keys == c.defs.Keys && d in w.units
    ensures Unvisited(w, RunCommand(c, w, d, phase, line).After(), x)
  {
    hide Stop;
    var o := Perform(c, w, d, Command(phase, Bare(line)));
    StopUnvisited(c, o.w, d, true, x);
    UnvisitedComposes(w, o.w, Stop(c, o.w, d, true).w, x);
  }

  lemma {:induction false} StepUnvisited(c: Config, w: World, d: Name, i: Instr, x: Name)
    requires Usable(c, w) && d in w.units && Legal(c, d, [i]) && !Reaches(c.Edges(), d, x)
    ensures Unvisited(w, Step(c, w, d, i).After(), x)
    decreases Rank(c.Edges(), d), 0, 0
  {
    hide Start, Stop, RunCommand;
    match i {
      case Depend(r, _) =>
        assert Edge(c.Edges(), d, [i][0].dep);
        RankDecreases(c.Edges(), d, r);
        EdgeReaches(c.Edges(), d, r);
        if Reaches(c.Edges(), r, x) {
          EdgeThenReaches(c.Edges(), d, r, x);
        }
        StartUnvisited(c, w, r, false, x);
      case Conflict(y) => StopUnvisited(c, w, y, true, x);
      case Run(phase, line) => RunUnvisited(c, w, d, phase, line, x);
      case _ =>
    }
  }

  lemma {:induction false} ExecUnvisited(c: Config, w: World, d: Name, p: Program, x: Name)
    requires Usable(c, w) && d in w.units && Legal(c, d, p) && !Reaches(c.Edges(), d, x)
    ensures Unvisited(w, Exec(c, w, d, p).w, x)
    decreases Rank(c.Edges(), d), 0, |p|
  {
    if p != [] && !(p[0].Guarded() && Aborted(w, d)) && !p[0].Finish? {
      StepUnvisited(c, w, d, p[0], x);
      var s := Step(c, w, d, p[0]);
      if s.Continue? {
        ExecContinues(c, w, d, p);
        ExecUnvisited(c, s.w, d, p[1..], x);
        UnvisitedComposes(w, s.w, Exec(c, s.w, d, p[1..]).w, x);
      } else {
        ExecReturns(c, w, d, p);
      }
    }
  }

  /** A start visits only its own unit and units below it, its own from the first event to the last. */
  lemma {:induction false} StartUnvisited(c: Config, w: World, d: Name, manual: bool, x: Name)
    requires Usable(c, w) && !Reaches(c.Edges(), d, x)
    ensures var o := Start(c, w, d, manual);
            && (d != x || d !in w.units ==> Unvisited(w, o.w, x))
            && (d == x && d in w.units ==> OneVisit(w, o, d))
    decreases Rank(c.Edges(), d), 1, 0
  {
    hide Start, CleanUp, Begin, Exec, Unvisited, OneVisit;
    if d in w.units && !w.shutdown && d !in w.masked && w.units[d].state in {Stopped, Restarting} {
      StartUnfolds(c, w, d, manual);
      var w1 := w.Note(Enter(d));
      var b := Begin(c, w1, d, manual);
      var s := CleanUp(c, b, d);
      CleanUpUnvisited(c, b, d, x);
      var p := ProgramOf(c, w1.log, d);
      var o := if s.Continue? then Exec(c, s.w, d, p) else s.o;
      if s.Continue? {
        ExecUnvisited(c, s.w, d, p, x);
        UnvisitedComposes(b, s.w, o.w, x);
      }
      Noted(w, b, o, d, x);
    } else {
      StartRefused(c, w, d, manual);
      RefusedVisit(w, Start(c, w, d, manual), d, x);
    }
  }

  lemma Noted(w: World, b: World, o: Outcome, d: Name, x: Name)
    requires b.log == w.log + [Enter(d)] && Unvisited(b, o.w, x)
    ensures var o' := Outcome(o.w.Note(Returned(d, o.ok)), o.ok);
            (d != x ==> Unvisited(w, o'.w, x)) && (d == x ==> OneVisit(w, o', d))
  {
  }

  lemma RefusedVisit(w: World, o: Outcome, d: Name, x: Name)
    requires o.w.log == if d in w.units then w.log + [Enter(d)] + [Returned(d, o.ok)] else w.log
    ensures d != x || d !in w.units ==> Unvisited(w, o.w, x)
    ensures d == x && d in w.units ==> OneVisit(w, o, d)
  {
  }

  lemma CleanUpUnvisited(c: Config, w: World, d: Name, x: Name)
    requires w.units.Keys == c.defs.Keys && d in w.units
    ensures Unvisited(w, CleanUp(c, w, d).After(), x)
  {
    hide Stop;
    StopUnvisited(c, w, d, false, x);
  }

  /** The first event begins the one start of d there is, and the last one ends it with the outcome's result. */
  ghost predicate OneVisit(w: World, o: Outcome, d: Name) {
    && w.log <= o.w.log && |o.w.log| >= |w.log| + 2
    && o.w.log[|w.log|] == Enter(d) && o.w.log[|o.w.log| - 1] == Returned(d, o.ok)
    && forall i :: |w.log| < i < |o.w.log| - 1 ==> !Visits(o.w.log[i], d)
  }

  lemma NotBelowItself(c: Config, d: Name)
    requires c.Valid()
    ensures !Reaches(c.Edges(), d, d)
  {
  }

  /** The history goes through `stopped`, directly after it begins the only start of d since w, and it ends with that
      start's return of the outcome's result. */
  ghost predicate StartsAfter(stopped: History, w: World, o: Outcome, d: Name) {
    var k, last := |stopped|, |o.w.log| - 1;
    && |w.log| <= k < last && o.w.log[..k] == stopped
    && o.w.log[k] == Enter(d) && o.w.log[last] == Returned(d, o.ok)
    && forall i :: |w.log| <= i < |o.w.log| && i != k && i != last ==> !Visits(o.w.log[i], d)
  }

  lemma VisitAfter(w: World, s: World, o: Outcome, d: Name)
    requires Unvisited(w, s, d) && OneVisit(s, o, d)
    ensures StartsAfter(s.log, w, o, d)
  {
    forall i | |w.log| <= i < |s.log|
      ensures !Visits(o.w.log[i], d)
    {
      assert o.w.log[i] == s.log[i];
    }
  }

  lemma RestartIsStopThenStart(c: Config, w: World, d: Name)
    requires Usable(c, w) && d in w.units && d !in w.masked && w.units[d].state in {Running, Stopped}
    requires Stop(c, w.SetState(d, Restarting), d, true).ok
    ensures Restart(c, w, d) == Start(c, Stop(c, w.SetState(d, Restarting), d, true).w, d, true)
  {
    hide Start;
  }

  /** The stop of a restart: all of it is in the history, and no start of d. */
  lemma RestartStops(c: Config, w: World, d: Name) returns (s: Outcome)
    requires Usable(c, w) && d in w.units && d !in w.masked && w.units[d].state in {Running, Stopped}
    requires c.outcome(w.log, d, OpenLog)
    ensures s == Stop(c, w.SetState(d, Restarting), d, true) && s.ok && s.w.IsState(d, Stopped)
    ensures s.w.log == w.log + Dids(d, [OpenLog] + StopDeeds(c.defs[d]), w.RunningUnits() - {d})
    ensures Unvisited(w, s.w, d) && Extends(w, s.w)
  {
    hide Stop, StopDeeds, Dids, Unvisited, Config.Valid, World.SetState, World.RunningUnits, Extends;
    var w1 := w.SetState(d, Restarting);
    Announced(w, d);
    s := Stop(c, w1, d, true);
    StopDoes(c, w1, d, true);
    StopUnvisited(c, w1, d, true, d);
    StopExtends(c, w1, d);
    SameUnvisited(w, w1, s.w, d);
  }

  lemma Announced(w: World, d: Name)
    requires d in w.units
    ensures var w1 := w.SetState(d, Restarting);
            && w1.units.Keys == w.units.Keys && w1.masked == w.masked && w1.shutdown == w.shutdown && w1.log == w.log
            && w1.RunningUnits() - {d} == w.RunningUnits() - {d}
  {
  }

  lemma SameUnvisited(w: World, w1: World, w': World, d: Name)
    requires w1.log == w.log && w1.units.Keys == w.units.Keys && w1.masked == w.masked && w1.shutdown == w.shutdown
    ensures Unvisited(w1, w', d) ==> Unvisited(w, w', d)
    ensures Extends(w1, w') ==> Extends(w, w')
  {
  }

  /** From Running or Stopped, when the log opens: the unit's whole stop, and directly after its last act the only
      start of the unit there is; the restart ends with it and returns its result. */
  lemma RestartStopsAndStarts(c: Config, w: World, d: Name)
    requires Usable(c, w) && d in w.units && d !in w.masked && w.units[d].state in {Running, Stopped}
    requires c.outcome(w.log, d, OpenLog)
    ensures StartsAfter(w.log + Dids(d, [OpenLog] + StopDeeds(c.defs[d]), w.RunningUnits() - {d}), w, Restart(c, w, d), d)
  {
    hide Start, Stop, Restart, StopDeeds, Dids, StartsAfter, Unvisited, OneVisit, Config.Valid;
    var s := RestartStops(c, w, d);
    RestartIsStopThenStart(c, w, d);
    NotBelowItself(c, d);
    StartUnvisited(c, s.w, d, true, d);
    VisitAfter(w, s.w, Start(c, s.w, d, true), d);
  }

  /** A restart is refused, and changes nothing, for a masked unit and for one on its way up or down. */
  lemma RestartRefused(c: Config, w: World, d: Name)
    requires Usable(c, w) && d in w.units
    requires d in w.masked || w.units[d].state in {Restarting, Stopping, Starting}
    ensures Restart(c, w, d) == Outcome(w, false)
  {
  }

  // ---- a restart that nothing is in the way of

  lemma ReachedSame(c: Config, w: World, w': World, d: Name, x: Name)
    requires w'.masked == w.masked && forall y :: w'.IsState(y, Running) <==> w.IsState(y, Running)
    ensures Reached(c, w', d, x) <==> Reached(c, w, d, x)
  {
    forall y
      ensures Passable(w', y) <==> Passable(w, y)
    {
    }
    if Reached(c, w, d, x) {
      var p :| ReachedBy(c, w, d, x, p);
      assert ReachedBy(c, w', d, x, p);
    }
    if Reached(c, w', d, x) {
      var p :| ReachedBy(c, w', d, x, p);
      assert ReachedBy(c, w, d, x, p);
    }
  }

  lemma SucceedSame(c: Config, w: World, w': World, d: Name)
    requires w'.masked == w.masked && (forall y :: w'.IsState(y, Running) <==> w.IsState(y, Running)) && AllSucceed(c, w, d)
    ensures AllSucceed(c, w', d)
  {
    forall y | y in c.defs && Passable(w', y) && Reached(c, w', d, y)
      ensures Unhindered(c, w', y)
    {
      ReachedSame(c, w, w', d, y);
      assert Passable(w, y);
    }
  }

  /** When nothing is in the way of the stopped unit, a restart succeeds: the unit is Running again and has run its
      whole block once, exactly the units reached from it came up with it, and no other unit ran anything. */
  lemma RestartBringsUp(c: Config, w: World, d: Name, x: Name)
    requires Ready(c, w) && Settled(w) && d in w.units && d !in w.masked && x in c.defs && x !in w.masked
    requires AllSucceed(c, w.SetState(d, Stopped), d)
    ensures var o, down := Restart(c, w, d), w.SetState(d, Stopped);
            && o.ok && o.w.IsState(d, Running) && RanSince(w, o.w, d) == Block(c.defs[d])
            && o.w.IsState(x, if down.IsState(x, Running) || Reached(c, down, d, x) then Running else Stopped)
            && RanSince(w, o.w, x) ==
               if !down.IsState(x, Running) && Reached(c, down, d, x) then Block(c.defs[x]) else []
  {
    hide Start, Stop, Ran, Block, AllSucceed;
    var w1, down := w.SetState(d, Restarting), w.SetState(d, Stopped);
    var s := Stop(c, w1, d, true);
    StopDoes(c, w1, d, true);
    StopLeaves(c, w, d);
    assert forall y :: s.w.IsState(y, Running) <==> down.IsState(y, Running);
    SucceedSame(c, down, s.w, d);
    var o := Start(c, s.w, d, true);
    assert Restart(c, w, d) == o;
    StartedUp(c, s.w, d);
    BroughtUp(c, w, s.w, down, d, d);
    BroughtUp(c, w, s.w, down, d, x);
  }

  lemma StopLeaves(c: Config, w: World, d: Name)
    requires Ready(c, w) && Settled(w) && d in w.units && d !in w.masked
    ensures var s := Stop(c, w.SetState(d, Restarting), d, true);
            && s.ok && Ready(c, s.w) && Settled(s.w) && Extends(w, s.w) && s.w.IsState(d, Stopped)
            && forall y :: y in w.units && y != d ==> s.w.units[y] == w.units[y]
  {
    hide RunStop;
  }

  lemma StartedUp(c: Config, w: World, d: Name)
    requires Ready(c, w) && Settled(w) && AllSucceed(c, w, d) && w.IsState(d, Stopped) && d !in w.masked
    ensures Start(c, w, d, true).ok && Extends(w, Start(c, w, d, true).w)
  {
    hide Start;
    assert Grown(c, w, w);
    StartAll(c, w, w, d, true);
  }

  lemma BroughtUp(c: Config, w: World, w1: World, down: World, d: Name, x: Name)
    requires Ready(c, w1) && Settled(w1) && AllSucceed(c, w1, d) && x in c.defs && x !in w1.masked
    requires d in w.units && down == w.SetState(d, Stopped) && down.masked == w1.masked
    requires w.units.Keys == c.defs.Keys && w1 == Stop(c, w.SetState(d, Restarting), d, true).w
    requires forall y :: w1.IsState(y, Running) <==> down.IsState(y, Running)
    ensures var w' := Start(c, w1, d, true).w;
            && Extends(w, w1) && Extends(w1, w')
            && w'.IsState(x, if down.IsState(x, Running) || Reached(c, down, d, x) then Running else Stopped)
            && RanSince(w, w', x) ==
               (if !down.IsState(x, Running) && Reached(c, down, d, x) then Block(c.defs[x]) else [])
            && (x == d ==> Reached(c, down, d, x))
  {
    hide Stop, Ran, Block, AllSucceed;
    var r := w.SetState(d, Restarting);
    StopRanNothing(c, r, d, true, x);
    StartBringsUp(c, w1, d, true, x);
    ReachedSame(c, down, w1, d, x);
    ReachedUnfolds(c, down, d, x);
    StopExtends(c, r, d);
    StartExtends(c, w1, d, true);
    RanSinceComposes(w, w1, Start(c, w1, d, true).w, x);
  }

  lemma StopExtends(c: Config, w: World, d: Name)
    requires w.units.Keys == c.defs.Keys
    ensures Extends(w, Stop(c, w, d, true).w)
  {
  }
}
