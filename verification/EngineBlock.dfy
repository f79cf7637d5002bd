/** A start that brings its unit up has run the unit's whole block of start commands exactly once, whatever else
    happened; any other start has run a beginning of it. */
module EngineBlock {
  import opened Graph
  import opened Engine
  import opened EngineOrder
  import opened EngineSuccess

  lemma StopRanNothing(c: Config, w: World, n: Name, announce: bool, x: Name)
    requires w.units.Keys == c.defs.Keys
    ensures RanSince(w, Stop(c, w, n, announce).w, x) == []
  {
    hide RunStop;
    if n in w.units && n !in w.masked {
      var w1 := if !w.IsState(n, Restarting) || announce then w.SetState(n, Stopping) else w;
      RanOne(w1, Perform(c, w1, n, OpenLog).w, Did(n, OpenLog, w1.RunningUnits()), x);
      StoppingRanNothing(c, w1, n, x);
    } else {
      RanNoLog(w, w, x);
    }
  }

  lemma RanNoLog(w: World, w': World, x: Name)
    requires w'.log == w.log
    ensures RanSince(w, w', x) == []
  {
    assert w'.log[|w.log|..] == [];
  }

  /** Notes of entries and returns are no commands. */
  lemma RanNote(w: World, w1: World, e: Event, x: Name)
    requires w.log <= w1.log && !e.Did?
    ensures RanSince(w, w1.Note(e), x) == RanSince(w, w1, x)
  {
    RanOne(w1, w1.Note(e), e, x);
    RanSinceComposes(w, w1, w1.Note(e), x);
  }

  lemma EntryRan(c: Config, w: World, d: Name, manual: bool, x: Name)
    requires w.units.Keys == c.defs.Keys && d in w.units
    ensures RanSince(w, CleanUp(c, Begin(c, w.Note(Enter(d)), d, manual), d).After(), x) == []
  {
    hide Ran;
    var b := Begin(c, w.Note(Enter(d)), d, manual);
    var w1 := Stop(c, b, d, false).w;
    RanNoLog(w, w, x);
    RanNote(w, w, Enter(d), x);
    StopRanNothing(c, b, d, false, x);
    RanSinceComposes(w, b, w1, x);
  }

  /** The start commands of x that one instruction of d runs, other than by starting a dependency. */
  function OwnLine(d: Name, i: Instr, x: Name): seq<Act> {
    if d == x then LaunchOf(i) else []
  }

  lemma OneActRan(c: Config, w: World, d: Name, i: Instr, x: Name)
    requires Usable(c, w) && d in w.units && Legal(c, d, [i])
    requires i.Prepare? || i.AttachLog? || i.Condition?
    ensures RanSince(w, Step(c, w, d, i).After(), x) == OwnLine(d, i, x)
  {
    var act :=
      match i
      case Prepare => ResolveEnvironment
      case AttachLog => OpenLog
      case Condition(line) => Command(ExecCondition, line)
      case _ => AwaitExit;
    RanOne(w, Step(c, w, d, i).After(), Did(d, act, w.RunningUnits()), x);
  }

  lemma RunRan(c: Config, w: World, d: Name, phase: Phase, line: string, x: Name)
    requires w.units.Keys == c.defs.Keys && d in w.units
    ensures RanSince(w, RunCommand(c, w, d, phase, line).After(), x) == OwnLine(d, Run(phase, line), x)
  {
    hide Stop;
    var o := Perform(c, w, d, Command(phase, Bare(line)));
    RanOne(w, o.w, Did(d, Command(phase, Bare(line)), w.RunningUnits()), x);
    if !o.ok && Fatal(line) {
      var w1 := Stop(c, o.w, d, true).w;
      StopRanNothing(c, o.w, d, true, x);
      RanSinceComposes(w, o.w, w1, x);
    }
  }

  // ---- a start runs lines only of its own unit and of units below it

  lemma {:induction false} StepRan(c: Config, w: World, d: Name, i: Instr, x: Name)
    requires Usable(c, w) && d in w.units && Legal(c, d, [i]) && !Reaches(c.Edges(), d, x)
    ensures RanSince(w, Step(c, w, d, i).After(), x) == OwnLine(d, i, x)
    decreases Rank(c.Edges(), d), 0, 0
  {
    hide Start, Stop, Ran;
    match i {
      case Depend(r, _) =>
        assert Edge(c.Edges(), d, [i][0].dep);
        RankDecreases(c.Edges(), d, r);
        EdgeReaches(c.Edges(), d, r);
        if Reaches(c.Edges(), r, x) {
          EdgeThenReaches(c.Edges(), d, r, x);
        }
        StartRan(c, w, r, false, x);
      case Conflict(y) => StopRanNothing(c, w, y, true, x);
      case Run(phase, line) => RunRan(c, w, d, phase, line, x);
      case Finish => RanNoLog(w, w, x);
      case _ => OneActRan(c, w, d, i, x);
    }
  }

  lemma {:induction false} ExecRan(c: Config, w: World, d: Name, p: Program, x: Name)
    requires Usable(c, w) && d in w.units && Legal(c, d, p) && d != x && !Reaches(c.Edges(), d, x)
    ensures RanSince(w, Exec(c, w, d, p).w, x) == []
    decreases Rank(c.Edges(), d), 0, |p|
  {
    hide Ran;
    if p == [] || (p[0].Guarded() && Aborted(w, d)) || p[0].Finish? {
      RanNoLog(w, Exec(c, w, d, p).w, x);
    } else {
      StepRan(c, w, d, p[0], x);
      var s := Step(c, w, d, p[0]);
      if s.Continue? {
        ExecContinues(c, w, d, p);
        ExecRan(c, s.w, d, p[1..], x);
        RanSinceComposes(w, s.w, Exec(c, s.w, d, p[1..]).w, x);
      } else {
        ExecReturns(c, w, d, p);
      }
    }
  }

  lemma {:induction false} StartRan(c: Config, w: World, d: Name, manual: bool, x: Name)
    requires Usable(c, w) && d != x && !Reaches(c.Edges(), d, x)
    ensures RanSince(w, Start(c, w, d, manual).w, x) == []
    decreases Rank(c.Edges(), d), 1, 0
  {
    hide Start, CleanUp, Begin, Exec, Ran;
    if d in w.units && !w.shutdown && d !in w.masked && w.units[d].state in {Stopped, Restarting} {
      StartUnfolds(c, w, d, manual);
      EntryRan(c, w, d, manual, x);
      var s := CleanUp(c, Begin(c, w.Note(Enter(d)), d, manual), d);
      var p := ProgramOf(c, w.log + [Enter(d)], d);
      var o := if s.Continue? then Exec(c, s.w, d, p) else s.o;
      if s.Continue? {
        ExecRan(c, s.w, d, p, x);
        RanSinceComposes(w, s.w, o.w, x);
      }
      RanNote(w, o.w, Returned(d, o.ok), x);
    } else {
      RefusedRan(c, w, d, manual, x);
    }
  }

  lemma SameLog(w: World, w1: World, w2: World, x: Name)
    requires w.log <= w1.log == w2.log
    ensures RanSince(w, w1, x) == RanSince(w, w2, x)
  {
  }

  lemma RefusedRan(c: Config, w: World, d: Name, manual: bool, x: Name)
    requires Usable(c, w)
    requires !(d in w.units && !w.shutdown && d !in w.masked && w.units[d].state in {Stopped, Restarting})
    ensures RanSince(w, Start(c, w, d, manual).w, x) == []
  {
    hide Start, Ran;
    StartRefused(c, w, d, manual);
    RanNoLog(w, w, x);
    if d in w.units {
      var ok := Start(c, w, d, manual).ok;
      RanNote(w, w, Enter(d), x);
      RanNote(w, w.Note(Enter(d)), Returned(d, ok), x);
      SameLog(w, w.Note(Enter(d)).Note(Returned(d, ok)), Start(c, w, d, manual).w, x);
    } else {
      SameLog(w, w, Start(c, w, d, manual).w, x);
    }
  }

  // ---- the unit's own block

  /** After Finish nothing is left to run. */
  lemma FinishedLines(p: Program)
    requires InOrder(p) && p != [] && p[0].Finish?
    ensures Launches(p) == []
  {
    forall i | i in p
      ensures !i.Run? && !i.Condition?
    {
      var k :| 0 <= k < |p| && p[k] == i;
      assert Stage(p[0]) <= Stage(p[k]);
    }
    NoLaunches(p);
  }

  /** An instruction never makes its own unit Running. */
  lemma StepStaysDown(c: Config, w: World, d: Name, i: Instr)
    requires Usable(c, w) && d in w.units && Legal(c, d, [i]) && !w.IsState(d, Running)
    ensures !Step(c, w, d, i).After().IsState(d, Running)
  {
    StepRaises(c, w, d, i);
  }

  /** A program runs its commands from the front, and all of them if it ends with its unit Running. */
  lemma {:induction false} ExecBlock(c: Config, w: World, d: Name, p: Program)
    requires Usable(c, w) && d in w.units && Legal(c, d, p) && InOrder(p) && !w.IsState(d, Running)
    ensures RanSince(w, Exec(c, w, d, p).w, d) <= Launches(p)
    ensures Exec(c, w, d, p).w.IsState(d, Running) ==> RanSince(w, Exec(c, w, d, p).w, d) == Launches(p)
    decreases |p|
  {
    hide Ran;
    if p == [] || (p[0].Guarded() && Aborted(w, d)) {
      RanNoLog(w, Exec(c, w, d, p).w, d);
    } else if p[0].Finish? {
      RanNoLog(w, Exec(c, w, d, p).w, d);
      FinishedLines(p);
    } else {
      var s := Step(c, w, d, p[0]);
      StepStaysDown(c, w, d, p[0]);
      StepRan(c, w, d, p[0], d);
      if s.Continue? {
        ExecContinues(c, w, d, p);
        ExecBlock(c, s.w, d, p[1..]);
        RanSinceComposes(w, s.w, Exec(c, s.w, d, p[1..]).w, d);
      } else {
        ExecReturns(c, w, d, p);
      }
    }
  }

  /** Whatever commands, conditions, logs, conflicts and other units do: a start of a unit that is not Running runs
      the unit's conditions and the lines of its three lists from the front, each once and in order, and all of
      them if it leaves the unit Running. */
  lemma StartRunsBlock(c: Config, w: World, d: Name, manual: bool)
    requires Usable(c, w) && d in w.units && !w.IsState(d, Running)
    ensures RanSince(w, Start(c, w, d, manual).w, d) <= Block(c.defs[d])
    ensures Start(c, w, d, manual).w.IsState(d, Running) ==> RanSince(w, Start(c, w, d, manual).w, d) == Block(c.defs[d])
  {
    hide Start, CleanUp, Begin, Exec, Ran, Block;
    if !w.shutdown && d !in w.masked && w.units[d].state in {Stopped, Restarting} {
      StartUnfolds(c, w, d, manual);
      EntryRan(c, w, d, manual, d);
      var s := CleanUp(c, Begin(c, w.Note(Enter(d)), d, manual), d);
      EntryStaysDown(c, w, d, manual);
      var h := w.log + [Enter(d)];
      var o := if s.Continue? then Exec(c, s.w, d, ProgramOf(c, h, d)) else s.o;
      if s.Continue? {
        ProgramInOrder(c, h, d);
        LaunchesOfProgram(c, h, d);
        ExecBlock(c, s.w, d, ProgramOf(c, h, d));
        RanSinceComposes(w, s.w, o.w, d);
      }
      RanNote(w, o.w, Returned(d, o.ok), d);
    } else {
      RefusedRan(c, w, d, manual, d);
      RefusedStaysDown(c, w, d, manual);
    }
  }

  lemma EntryStaysDown(c: Config, w: World, d: Name, manual: bool)
    requires Usable(c, w) && d in w.units && w.units[d].state in {Stopped, Restarting}
    ensures !CleanUp(c, Begin(c, w.Note(Enter(d)), d, manual), d).After().IsState(d, Running)
  {
    hide RunStop, RunStopLines, Perform;
    var b := Begin(c, w.Note(Enter(d)), d, manual);
    assert !Stop(c, b, d, false).w.IsState(d, Running);
  }

  lemma RefusedStaysDown(c: Config, w: World, d: Name, manual: bool)
    requires Usable(c, w) && !w.IsState(d, Running)
    requires !(d in w.units && !w.shutdown && d !in w.masked && w.units[d].state in {Stopped, Restarting})
    ensures !Start(c, w, d, manual).w.IsState(d, Running)
  {
    hide Start;
    StartRefused(c, w, d, manual);
  }
}
