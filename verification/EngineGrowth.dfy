/** Where no unit declares Conflicts, a start never brings a running unit down, so a unit that has become Running
    launches nothing more in the call. */
module EngineGrowth {
  import opened Graph
  import opened Engine
  import opened EngineOrder

  ghost predicate NoConflicts(c: Config) {
    forall d :: d in c.defs ==> c.defs[d].Names(Conflicts) == {}
  }

  /** What is running at an event noted between w and w' was running at w or came up before, and stays up. */
  ghost predicate Between(w: World, w': World, i: nat)
    requires i < |w'.log|
  {
    w'.log[i].Did? ==> w.RunningUnits() <= w'.log[i].running <= w'.RunningUnits()
  }

  /** From w to w' running units stay up, at every event on the way. */
  ghost predicate Grows(w: World, w': World) {
    && Extends(w, w') && w.RunningUnits() <= w'.RunningUnits()
    && (forall i :: |w.log| <= i < |w'.log| ==> Between(w, w', i))
    && forall i, j :: |w.log| <= i < j < |w'.log| && w'.log[i].Did? && w'.log[j].Did? ==>
         w'.log[i].running <= w'.log[j].running
  }

  lemma GrowsComposes(w0: World, w1: World, w2: World)
    requires Grows(w0, w1) && Grows(w1, w2)
    ensures Grows(w0, w2)
  {
    ExtendsTransitive(w0, w1, w2);
    forall i | |w0.log| <= i < |w2.log|
      ensures Between(w0, w2, i)
    {
      if i < |w1.log| {
        assert Between(w0, w1, i) && w1.log[i] == w2.log[i];
      } else {
        assert Between(w1, w2, i);
      }
    }
    forall i, j | |w0.log| <= i < j < |w2.log| && w2.log[i].Did? && w2.log[j].Did?
      ensures w2.log[i].running <= w2.log[j].running
    {
      if i < |w1.log| {
        assert Between(w0, w1, i) && w1.log[i] == w2.log[i];
        if j < |w1.log| {
          assert w1.log[j] == w2.log[j];
        } else {
          assert Between(w1, w2, j);
        }
      }
    }
  }

  /** A step without events, or with one, that brings nothing down. */
  lemma SmallStep(w: World, w': World)
    requires Extends(w, w') && w.RunningUnits() <= w'.RunningUnits()
    requires |w'.log| <= |w.log| + 1
    requires forall i :: |w.log| <= i < |w'.log| && w'.log[i].Did? ==> w'.log[i].running == w.RunningUnits()
    ensures Grows(w, w')
  {
  }

  lemma NoteGrows(w: World, e: Event)
    requires !e.Did?
    ensures Grows(w, w.Note(e))
  {
    SmallStep(w, w.Note(e));
  }

  /** A unit that is not running may be written. */
  lemma UpdateGrows(w: World, d: Name, u: Unit)
    requires d in w.units && !w.IsState(d, Running)
    ensures Grows(w, w.Update(d, u))
  {
    SmallStep(w, w.Update(d, u));
  }

  // ---- stops of a unit that is not running

  lemma PerformGrows(c: Config, w: World, d: Name, act: Act)
    ensures Grows(w, Perform(c, w, d, act).w)
  {
    SmallStep(w, Perform(c, w, d, act).w);
  }

  lemma {:induction false} StopLinesGrow(c: Config, w: World, d: Name, phase: Phase, lines: seq<string>)
    requires d in w.units
    ensures Grows(w, RunStopLines(c, w, d, phase, lines))
    decreases |lines|
  {
    if lines == [] {
      SmallStep(w, w);
    } else {
      var act := Command(phase, lines[0]);
      var o := Perform(c, w, d, act);
      var w1 := if o.ok then o.w else o.w.SetFailed(d, true);
      PerformGrows(c, w, d, act);
      SmallStep(o.w, w1);
      GrowsComposes(w, o.w, w1);
      StopLinesGrow(c, w1, d, phase, lines[1..]);
      GrowsComposes(w, w1, RunStopLines(c, w1, d, phase, lines[1..]));
    }
  }

  lemma RunStopGrows(c: Config, w: World, d: Name)
    requires w.units.Keys == c.defs.Keys && d in w.units
    ensures Grows(w, RunStop(c, w, d))
  {
    hide RunStopLines, Grows;
    var w1 := RunStopLines(c, w, d, ExecStopPre, c.defs[d].stopPre);
    StopLinesGrow(c, w, d, ExecStopPre, c.defs[d].stopPre);
    var w2 := RunStopLines(c, w1, d, ExecStop, c.defs[d].stop);
    StopLinesGrow(c, w1, d, ExecStop, c.defs[d].stop);
    GrowsComposes(w, w1, w2);
    var w3 := RunStopLines(c, w2, d, ExecStopPost, c.defs[d].stopPost);
    StopLinesGrow(c, w2, d, ExecStopPost, c.defs[d].stopPost);
    GrowsComposes(w, w2, w3);
    AwaitGrows(c, w3, d);
    GrowsComposes(w, w3, RunStop(c, w, d));
  }

  lemma AwaitGrows(c: Config, w: World, d: Name)
    requires d in w.units
    ensures var o := Perform(c, w, d, AwaitExit); Grows(w, if o.ok then o.w else o.w.SetFailed(d, true))
  {
    var o := Perform(c, w, d, AwaitExit);
    PerformGrows(c, w, d, AwaitExit);
    SmallStep(o.w, o.w.SetFailed(d, true));
    GrowsComposes(w, o.w, o.w.SetFailed(d, true));
  }

  lemma StopGrows(c: Config, w: World, d: Name, announce: bool)
    requires w.units.Keys == c.defs.Keys && !w.IsState(d, Running)
    ensures Grows(w, Stop(c, w, d, announce).w)
  {
    hide RunStop, Perform, Grows;
    if d in w.units && d !in w.masked {
      var w1 := if !w.IsState(d, Restarting) || announce then w.SetState(d, Stopping) else w;
      SmallStep(w, w1);
      var o := Perform(c, w1, d, OpenLog);
      PerformGrows(c, w1, d, OpenLog);
      GrowsComposes(w, w1, o.w);
      if o.ok {
        var w2 := RunStop(c, o.w, d);
        RunStopGrows(c, o.w, d);
        GrowsComposes(w, o.w, w2);
        UpdateGrows(w2, d, w2.units[d].(state := Stopped));
        GrowsComposes(w, w2, w2.SetState(d, Stopped));
      } else {
        UpdateGrows(o.w, d, o.w.units[d].(failed := true));
        GrowsComposes(w, o.w, o.w.SetFailed(d, true));
      }
    } else {
      SmallStep(w, w);
    }
  }

  // ---- starts

  /** An instruction of a unit on its way up brings nothing down, and leaves that unit down. */
  lemma {:induction false} StepGrows(c: Config, w: World, d: Name, i: Instr)
    requires Usable(c, w) && NoConflicts(c) && d in w.units && Legal(c, d, [i]) && !i.Conflict? && !w.IsState(d, Running)
    ensures var w' := Step(c, w, d, i).After(); Grows(w, w') && !w'.IsState(d, Running)
    decreases Rank(c.Edges(), d), 0, 0
  {
    hide Start, StartLoaded, RunCommand, Grows;
    match i {
      case Depend(r, hard) =>
        assert Edge(c.Edges(), d, [i][0].dep);
        RankDecreases(c.Edges(), d, r);
        NotBehind(c, d, r);
        StartRaises(c, w, r, false);
        StartGrows(c, w, r, false);
        var w1 := Start(c, w, r, false).w;
        UpdateGrows(w1, d, w1.units[d].(state := Stopped, failed := true));
        GrowsComposes(w, w1, w1.Fail(d));
      case Run(phase, line) => RunGrows(c, w, d, phase, line);
      case _ => OneActGrows(c, w, d, i);
    }
  }

  lemma OneActGrows(c: Config, w: World, d: Name, i: Instr)
    requires Usable(c, w) && d in w.units && Legal(c, d, [i]) && !w.IsState(d, Running)
    requires i.Prepare? || i.AttachLog? || i.Condition? || i.Finish?
    ensures var w' := Step(c, w, d, i).After(); Grows(w, w') && !w'.IsState(d, Running)
  {
    SmallStep(w, Step(c, w, d, i).After());
  }

  lemma RunGrows(c: Config, w: World, d: Name, phase: Phase, line: string)
    requires Usable(c, w) && d in w.units && !w.IsState(d, Running)
    ensures var w' := RunCommand(c, w, d, phase, line).After(); Grows(w, w') && !w'.IsState(d, Running)
  {
    var o := Perform(c, w, d, Command(phase, Bare(line)));
    PerformGrows(c, w, d, Command(phase, Bare(line)));
    if !o.ok && Fatal(line) {
      var w1 := Stop(c, o.w, d, true).w;
      StopGrows(c, o.w, d, true);
      GrowsComposes(w, o.w, w1);
      StopKeepsDown(c, o.w, d, true);
      SmallStep(w1, w1.Fail(d));
      GrowsComposes(w, w1, w1.Fail(d));
    }
  }

  /** A stop brings nothing up. */
  lemma StopKeepsDown(c: Config, w: World, d: Name, announce: bool)
    requires w.units.Keys == c.defs.Keys && !w.IsState(d, Running)
    ensures !Stop(c, w, d, announce).w.IsState(d, Running)
  {
  }

  ghost predicate Peaceful(p: Program) {
    forall i :: i in p ==> !i.Conflict?
  }

  lemma {:induction false} ExecGrows(c: Config, w: World, d: Name, p: Program)
    requires Usable(c, w) && NoConflicts(c) && d in w.units && Legal(c, d, p) && Peaceful(p) && !w.IsState(d, Running)
    ensures Grows(w, Exec(c, w, d, p).w)
    decreases Rank(c.Edges(), d), 0, |p|
  {
    if p == [] || (p[0].Guarded() && Aborted(w, d)) || p[0].Finish? {
      SmallStep(w, Exec(c, w, d, p).w);
    } else {
      assert p[0] in p;
      StepGrows(c, w, d, p[0]);
      var s := Step(c, w, d, p[0]);
      if s.Continue? {
        ExecContinues(c, w, d, p);
        ExecGrows(c, s.w, d, p[1..]);
        GrowsComposes(w, s.w, Exec(c, s.w, d, p[1..]).w);
      } else {
        ExecReturns(c, w, d, p);
      }
    }
  }

  lemma PeacefulProgram(c: Config, h: History, d: Name)
    requires c.Valid() && NoConflicts(c) && d in c.defs
    ensures Peaceful(ProgramOf(c, h, d))
  {
    hide DependPart, CommandPart, InOrder;
    DependPartShape(c, h, d);
    CommandPartInOrder(c.defs[d]);
    assert c.order(h, d, Conflicts) == [];
  }

  lemma EntryGrows(c: Config, w: World, d: Name, manual: bool)
    requires Usable(c, w) && d in w.units && w.units[d].state in {Stopped, Restarting}
    ensures var s := CleanUp(c, Begin(c, w.Note(Enter(d)), d, manual), d); Grows(w, s.After())
  {
    hide Stop, Grows;
    var w1 := w.Note(Enter(d));
    var b := Begin(c, w1, d, manual);
    var w' := CleanUp(c, b, d).After();
    SmallStep(w, b);
    StopGrows(c, b, d, false);
    StopKeepsDown(c, b, d, false);
    var w2 := Stop(c, b, d, false).w;
    if !Aborted(b, d) {
      GrowsComposes(w, b, w2);
      SmallStep(w2, w');
      GrowsComposes(w, w2, w');
    }
  }

  /** Running units stay Running through a start, whatever commands, conditions and logs do. */
  lemma {:induction false} StartGrows(c: Config, w: World, d: Name, manual: bool)
    requires Usable(c, w) && NoConflicts(c)
    ensures Grows(w, Start(c, w, d, manual).w)
    decreases Rank(c.Edges(), d), 1, 0
  {
    hide Start, CleanUp, Begin, Exec, Grows;
    if d in w.units && !w.shutdown && d !in w.masked && w.units[d].state in {Stopped, Restarting} {
      StartUnfolds(c, w, d, manual);
      EntryGrows(c, w, d, manual);
      var s := CleanUp(c, Begin(c, w.Note(Enter(d)), d, manual), d);
      var p := ProgramOf(c, w.log + [Enter(d)], d);
      var o := if s.Continue? then Exec(c, s.w, d, p) else s.o;
      if s.Continue? {
        PeacefulProgram(c, w.log + [Enter(d)], d);
        ExecGrows(c, s.w, d, p);
        GrowsComposes(w, s.w, o.w);
      }
      NoteGrows(o.w, Returned(d, o.ok));
      GrowsComposes(w, o.w, o.w.Note(Returned(d, o.ok)));
    } else {
      RefusedGrows(c, w, d, manual);
    }
  }

  lemma RefusedGrows(c: Config, w: World, d: Name, manual: bool)
    requires Usable(c, w)
    requires !(d in w.units && !w.shutdown && d !in w.masked && w.units[d].state in {Stopped, Restarting})
    ensures Grows(w, Start(c, w, d, manual).w)
  {
    hide Start;
    StartRefused(c, w, d, manual);
    assert Extends(w, Start(c, w, d, manual).w);
  }

  /** Where nothing conflicts, and for every history of command results: a unit that was seen Running at any event of
      a start call launches nothing after that event. */
  lemma RunningLaunchesNothing(c: Config, w: World, d: Name, manual: bool, x: Name, i: nat, j: nat)
    requires Usable(c, w) && NoConflicts(c)
    requires |w.log| <= i < j < |Start(c, w, d, manual).w.log|
    requires var e := Start(c, w, d, manual).w.log[i]; e.Did? && x in e.running
    ensures var e := Start(c, w, d, manual).w.log[j]; !(Launch(c, e) && e.d == x)
  {
    var log := Start(c, w, d, manual).w.log;
    StartOrdered(c, w, d, manual);
    StartGrows(c, w, d, manual);
    assert LaunchOk(c, log, |w.log|, j);
  }

  /** In particular one that was Running before the call launches nothing in it. */
  lemma AlreadyRunningLaunchesNothing(c: Config, w: World, d: Name, manual: bool, x: Name, j: nat)
    requires Usable(c, w) && NoConflicts(c) && w.IsState(x, Running)
    requires |w.log| <= j < |Start(c, w, d, manual).w.log|
    ensures var e := Start(c, w, d, manual).w.log[j]; !(Launch(c, e) && e.d == x)
  {
    var w' := Start(c, w, d, manual).w;
    StartOrdered(c, w, d, manual);
    StartGrows(c, w, d, manual);
    assert LaunchOk(c, w'.log, |w.log|, j) && Between(w, w', j);
  }
}
