/** What a start leaves on record about its unit: that it was started by hand, and that it remains after exit. */
module EngineMarks {
  import opened Graph
  import opened Engine
  import opened EngineOrder
  import opened EngineMonitor

  /** From w to w' nobody's mark of being started by hand changes, and nobody stops remaining after exit. */
  ghost predicate Marked(w: World, w': World) {
    w'.units.Keys == w.units.Keys &&
    forall x :: x in w.units ==> w'.units[x].manual == w.units[x].manual && (w.units[x].remain ==> w'.units[x].remain)
  }

  lemma {:induction false} StopLinesMarked(c: Config, w: World, d: Name, phase: Phase, lines: seq<string>)
    requires d in w.units
    ensures Marked(w, RunStopLines(c, w, d, phase, lines))
    decreases |lines|
  {
    if lines != [] {
      var o := Perform(c, w, d, Command(phase, lines[0]));
      StopLinesMarked(c, if o.ok then o.w else o.w.SetFailed(d, true), d, phase, lines[1..]);
    }
  }

  lemma RunStopMarked(c: Config, w: World, d: Name)
    requires w.units.Keys == c.defs.Keys && d in w.units
    ensures Marked(w, RunStop(c, w, d))
  {
    hide RunStopLines;
    var w1 := RunStopLines(c, w, d, ExecStopPre, c.defs[d].stopPre);
    StopLinesMarked(c, w, d, ExecStopPre, c.defs[d].stopPre);
    var w2 := RunStopLines(c, w1, d, ExecStop, c.defs[d].stop);
    StopLinesMarked(c, w1, d, ExecStop, c.defs[d].stop);
    StopLinesMarked(c, w2, d, ExecStopPost, c.defs[d].stopPost);
  }

  lemma StopMarked(c: Config, w: World, d: Name, announce: bool)
    requires w.units.Keys == c.defs.Keys
    ensures Marked(w, Stop(c, w, d, announce).w)
  {
    hide RunStop, Records;
    if d in w.units && d !in w.masked {
      var w1 := if !w.IsState(d, Restarting) || announce then w.SetState(d, Stopping) else w;
      RunStopMarked(c, Perform(c, w1, d, OpenLog).w, d);
    }
  }

  lemma FailMarked(w: World, w': World, d: Name)
    requires Marked(w, w') && d in w'.units
    ensures Marked(w, w'.Fail(d))
  {
  }

  lemma RunMarked(c: Config, w: World, d: Name, phase: Phase, line: string)
    requires w.units.Keys == c.defs.Keys && d in w.units
    ensures Marked(w, RunCommand(c, w, d, phase, line).After())
  {
    hide Stop;
    var o := Perform(c, w, d, Command(phase, Bare(line)));
    StopMarked(c, o.w, d, true);
    FailMarked(w, Stop(c, o.w, d, true).w, d);
  }

  lemma {:induction false} StepMarked(c: Config, w: World, d: Name, i: Instr)
    requires Usable(c, w) && d in w.units && Legal(c, d, [i])
    ensures Marked(w, Step(c, w, d, i).After())
    decreases Rank(c.Edges(), d), 0, 0
  {
    hide Start, Stop, RunCommand;
    match i {
      case Depend(r, _) =>
        assert Edge(c.Edges(), d, [i][0].dep);
        RankDecreases(c.Edges(), d, r);
        StartMarks(c, w, r, false);
        FailMarked(w, Start(c, w, r, false).w, d);
      case Conflict(y) =>
        StopMarked(c, w, y, true);
        FailMarked(w, Stop(c, w, y, true).w, d);
      case Run(phase, line) => RunMarked(c, w, d, phase, line);
      case _ =>
    }
  }

  lemma {:induction false} ExecMarked(c: Config, w: World, d: Name, p: Program)
    requires Usable(c, w) && d in w.units && Legal(c, d, p)
    ensures Marked(w, Exec(c, w, d, p).w)
    decreases Rank(c.Edges(), d), 0, |p|
  {
    if p != [] && !(p[0].Guarded() && Aborted(w, d)) && !p[0].Finish? {
      StepMarked(c, w, d, p[0]);
      var s := Step(c, w, d, p[0]);
      if s.Continue? {
        ExecContinues(c, w, d, p);
        ExecMarked(c, s.w, d, p[1..]);
      } else {
        ExecReturns(c, w, d, p);
      }
    }
  }

  /** The start gets as far as its unit's record. */
  predicate Admitted(w: World, d: Name) {
    d in w.units && !w.shutdown && d !in w.masked && w.units[d].state !in {Starting, Stopping}
  }

  /** Whatever happens in it: a start by hand marks its own unit, if the unit is up or may be started, and no other;
      a start by another unit marks none. */
  lemma {:induction false} StartMarks(c: Config, w: World, d: Name, manual: bool)
    requires Usable(c, w)
    ensures var w' := Start(c, w, d, manual).w;
            forall x :: x in w.units ==>
              && w'.units[x].manual == (w.units[x].manual || (x == d && manual && Admitted(w, d)))
              && (w.units[x].remain ==> w'.units[x].remain)
    decreases Rank(c.Edges(), d), 1, 0
  {
    hide Start, CleanUp, Begin, Exec;
    if d in w.units && !w.shutdown && d !in w.masked && w.units[d].state in {Stopped, Restarting} {
      StartUnfolds(c, w, d, manual);
      EntryMarks(c, w, d, manual);
      var s := CleanUp(c, Begin(c, w.Note(Enter(d)), d, manual), d);
      if s.Continue? {
        ExecMarked(c, s.w, d, ProgramOf(c, w.log + [Enter(d)], d));
      }
    } else {
      RefusedMarks(c, w, d, manual);
    }
  }

  lemma EntryMarks(c: Config, w: World, d: Name, manual: bool)
    requires w.units.Keys == c.defs.Keys && d in w.units
    ensures var s := CleanUp(c, Begin(c, w.Note(Enter(d)), d, manual), d);
            && s.After().units.Keys == w.units.Keys
            && (forall x :: x in w.units ==>
                 && s.After().units[x].manual == (w.units[x].manual || (x == d && manual))
                 && (w.units[x].remain ==> s.After().units[x].remain))
            && (c.defs[d].oneshot ==> s.After().units[d].remain)
  {
    hide Stop;
    var b := Begin(c, w.Note(Enter(d)), d, manual);
    StopMarked(c, b, d, false);
  }

  lemma RefusedMarks(c: Config, w: World, d: Name, manual: bool)
    requires Usable(c, w)
    requires !(d in w.units && !w.shutdown && d !in w.masked && w.units[d].state in {Stopped, Restarting})
    ensures var w' := Start(c, w, d, manual).w;
            forall x :: x in w.units ==>
              && w'.units[x].manual == (w.units[x].manual || (x == d && manual && Admitted(w, d)))
              && w'.units[x].remain == w.units[x].remain
  {
    hide CleanUp, Begin, Exec;
  }

  /** A start that gets to work leaves its unit remaining after exit exactly if it did before or is a oneshot. */
  lemma StartRemains(c: Config, w: World, d: Name, manual: bool)
    requires Usable(c, w) && Admitted(w, d) && !w.IsState(d, Running)
    ensures Start(c, w, d, manual).w.units[d].remain == (w.units[d].remain || c.defs[d].oneshot)
  {
    hide Start, CleanUp, Begin, Exec;
    StartRemain(c, w, d, manual);
    StartMarks(c, w, d, manual);
    StartUnfolds(c, w, d, manual);
    EntryMarks(c, w, d, manual);
    var s := CleanUp(c, Begin(c, w.Note(Enter(d)), d, manual), d);
    if s.Continue? {
      ExecMarked(c, s.w, d, ProgramOf(c, w.log + [Enter(d)], d));
    }
  }

  lemma {:induction false} StopNamesMarked(c: Config, w: World, names: seq<Name>)
    requires w.units.Keys == c.defs.Keys
    ensures Marked(w, StopNames(c, w, names))
    decreases |names|
  {
    hide Stop;
    if names != [] {
      StopMarked(c, w, names[0], true);
      StopNamesMarked(c, Stop(c, w, names[0], true).w, names[1..]);
    }
  }

  /** Neither being restarted nor failing at it changes who counts as started by hand. */
  lemma WakeKeepsMarks(c: Config, w: World, d: Name, mode: Mode)
    requires Usable(c, w) && d in w.units
    ensures forall x :: x in w.units ==> Woken(c, w, d, mode).units[x].manual == w.units[x].manual
  {
    hide Start, StopNames;
    var w1 := if mode.Always? then w.SetFailed(d, false) else w;
    var o := Start(c, w1, d, w.units[d].manual);
    StartExtends(c, w1, d, w.units[d].manual);
    StartMarks(c, w1, d, w.units[d].manual);
    var bound := c.order(o.w.log, d, BoundBy);
    var w2 := StopNames(c, o.w, bound);
    StopNamesMarked(c, o.w, bound);
    StopNamesMarked(c, w2, c.order(w2.log, d, ConsistsOf));
  }

  /** Before the first start nothing is up, has failed or counts as started by hand, only the units whose file says so
      remain after exit, and nothing has happened. */
  lemma InitialMarks(c: Config, masked: set<Name>, remaining: set<Name>)
    ensures var w := InitialWorld(c, masked, remaining);
            && w.units.Keys == c.defs.Keys && w.log == [] && !w.shutdown
            && (forall d :: d in w.masked <==> d in masked && d in c.defs)
            && forall d :: d in c.defs ==>
                 && w.IsState(d, Stopped) && !w.units[d].failed && !w.units[d].manual
                 && (w.units[d].remain <==> d in remaining)
  {
  }
}
