/** Which calls leave every unit Running or Stopped. What can go wrong is one thing only: a log that does not open
    in a stop, or in the cleanup of a start, leaves its unit in Stopping. */
module EngineSettled {
  import opened Graph
  import opened Engine

  ghost predicate LogsOpen(c: Config) {
    forall h, d :: c.outcome(h, d, OpenLog)
  }

  /** Whether a unit's log opens does not change over time. */
  ghost predicate FixedLogs(c: Config) {
    forall h, h', d :: c.outcome(h, d, OpenLog) == c.outcome(h', d, OpenLog)
  }

  predicate Opens(c: Config, d: Name) {
    c.outcome([], d, OpenLog)
  }

  ghost predicate Settled(w: World) {
    forall x :: x in w.units ==> w.units[x].state == Running || w.units[x].state == Stopped
  }

  ghost predicate Ready(c: Config, w: World) {
    c.Valid() && LogsOpen(c) && w.units.Keys == c.defs.Keys && !w.shutdown
  }

  ghost predicate Fixed(c: Config, w: World) {
    c.Valid() && FixedLogs(c) && w.units.Keys == c.defs.Keys
  }

  /** Settled but for units stranded in Stopping, whose logs do not open. */
  ghost predicate Quiet(c: Config, w: World) {
    forall x :: x in w.units ==>
      w.units[x].state == Running || w.units[x].state == Stopped || (w.units[x].state == Stopping && !Opens(c, x))
  }

  predicate AsksLog(e: Event, x: Name) {
    e.Did? && e.d == x && e.act == OpenLog
  }

  /** Between w and w' the log of x was asked for. */
  ghost predicate Asked(w: World, w': World, x: Name) {
    exists i :: |w.log| <= i < |w'.log| && AsksLog(w'.log[i], x)
  }

  /** From w to w' exactly those units were stranded whose logs were asked for and do not open. */
  ghost predicate Strands(c: Config, w: World, w': World) {
    && Extends(w, w') && Quiet(c, w')
    && forall x :: x in w.units ==>
         (w'.IsState(x, Stopping) <==> w.IsState(x, Stopping) || (!Opens(c, x) && Asked(w, w', x)))
  }

  lemma AskedComposes(w0: World, w1: World, w2: World, x: Name)
    requires w0.log <= w1.log && w1.log <= w2.log
    ensures Asked(w0, w2, x) <==> Asked(w0, w1, x) || Asked(w1, w2, x)
  {
    if i :| |w0.log| <= i < |w1.log| && AsksLog(w1.log[i], x) {
      assert AsksLog(w2.log[i], x);
    }
    if i :| |w0.log| <= i < |w2.log| && AsksLog(w2.log[i], x) {
      if i < |w1.log| {
        assert AsksLog(w1.log[i], x);
      }
    }
  }

  lemma StrandsComposes(c: Config, w0: World, w1: World, w2: World)
    requires Strands(c, w0, w1) && Strands(c, w1, w2)
    ensures Strands(c, w0, w2)
  {
    ExtendsTransitive(w0, w1, w2);
    forall x | x in w0.units
      ensures w2.IsState(x, Stopping) <==> w0.IsState(x, Stopping) || (!Opens(c, x) && Asked(w0, w2, x))
    {
      AskedComposes(w0, w1, w2, x);
    }
  }

  /** A step that asks for no log, and changes at most the state of d, between Running and Stopped. */
  lemma SilentStep(c: Config, w: World, w': World)
    requires Quiet(c, w) && Extends(w, w') && forall x :: !Asked(w, w', x)
    requires forall x :: x in w.units && w'.units[x].state != w.units[x].state ==>
               w.units[x].state in {Running, Stopped} && w'.units[x].state in {Running, Stopped}
    ensures Strands(c, w, w')
  {
  }

  // ---- stops

  lemma {:induction false} StopLinesAskNothing(c: Config, w: World, d: Name, phase: Phase, lines: seq<string>, x: Name)
    requires d in w.units
    ensures !Asked(w, RunStopLines(c, w, d, phase, lines), x)
    decreases |lines|
  {
    if lines != [] {
      var o := Perform(c, w, d, Command(phase, lines[0]));
      var w1 := if o.ok then o.w else o.w.SetFailed(d, true);
      StopLinesAskNothing(c, w1, d, phase, lines[1..], x);
      AskedComposes(w, w1, RunStopLines(c, w1, d, phase, lines[1..]), x);
    }
  }

  lemma RunStopAsksNothing(c: Config, w: World, d: Name, x: Name)
    requires w.units.Keys == c.defs.Keys && d in w.units
    ensures !Asked(w, RunStop(c, w, d), x)
  {
    hide RunStopLines;
    var w1 := RunStopLines(c, w, d, ExecStopPre, c.defs[d].stopPre);
    StopLinesAskNothing(c, w, d, ExecStopPre, c.defs[d].stopPre, x);
    var w2 := RunStopLines(c, w1, d, ExecStop, c.defs[d].stop);
    StopLinesAskNothing(c, w1, d, ExecStop, c.defs[d].stop, x);
    AskedComposes(w, w1, w2, x);
    var w3 := RunStopLines(c, w2, d, ExecStopPost, c.defs[d].stopPost);
    StopLinesAskNothing(c, w2, d, ExecStopPost, c.defs[d].stopPost, x);
    AskedComposes(w, w2, w3, x);
    AskedComposes(w, w3, RunStop(c, w, d), x);
  }

  /** A stop past its entry checks asks for exactly one log, its own unit's. */
  lemma StopAsks(c: Config, w: World, d: Name, announce: bool, x: Name)
    requires w.units.Keys == c.defs.Keys
    ensures Asked(w, Stop(c, w, d, announce).w, x) <==> x == d && d in w.units && d !in w.masked
  {
    hide RunStop;
    if d in w.units && d !in w.masked {
      var w1 := if !w.IsState(d, Restarting) || announce then w.SetState(d, Stopping) else w;
      var o := Perform(c, w1, d, OpenLog);
      assert AsksLog(o.w.log[|w.log|], d);
      if o.ok {
        RunStopAsksNothing(c, o.w, d, x);
        AskedComposes(w, o.w, RunStop(c, o.w, d), x);
      }
    }
  }

  lemma StopStrands(c: Config, w: World, d: Name)
    requires Fixed(c, w) && Quiet(c, w)
    ensures Strands(c, w, Stop(c, w, d, true).w)
  {
    hide Stop, Asked;
    var w' := Stop(c, w, d, true).w;
    forall x
      ensures Asked(w, w', x) <==> x == d && d in w.units && d !in w.masked
    {
      StopAsks(c, w, d, true, x);
    }
    if d in w.units && d !in w.masked {
      StopState(c, w, d);
    } else {
      StopRefused(c, w, d);
    }
  }

  lemma StopRefused(c: Config, w: World, d: Name)
    requires w.units.Keys == c.defs.Keys && !(d in w.units && d !in w.masked)
    ensures Stop(c, w, d, true).w == w
  {
  }

  lemma StopState(c: Config, w: World, d: Name)
    requires Fixed(c, w) && d in w.units && d !in w.masked
    ensures Stop(c, w, d, true).w.IsState(d, if Opens(c, d) then Stopped else Stopping)
  {
    hide RunStop;
  }

  /** A stop does the same whether the unit was Restarting or in any other state. */
  lemma StopSame(c: Config, w: World, d: Name)
    requires w.units.Keys == c.defs.Keys && d in w.units && d !in w.masked
    ensures Stop(c, w.SetState(d, Restarting), d, true) == Stop(c, w, d, true)
  {
    assert w.SetState(d, Restarting).SetState(d, Stopping) == w.SetState(d, Stopping);
  }

  // ---- starts

  lemma EntryState(c: Config, w: World, d: Name, manual: bool)
    requires Fixed(c, w) && w.IsState(d, Stopped) && d !in w.masked && !w.shutdown
    ensures var s := CleanUp(c, Begin(c, w.Note(Enter(d)), d, manual), d);
            s.Continue? == Opens(c, d) && s.After().IsState(d, if Opens(c, d) then Stopped else Stopping)
  {
    hide RunStop;
  }

  /** The entry of a start asks for the log of its unit only. */
  lemma EntryAsks(c: Config, w: World, d: Name, manual: bool, x: Name)
    requires w.units.Keys == c.defs.Keys && d in w.units
    ensures Asked(w, CleanUp(c, Begin(c, w.Note(Enter(d)), d, manual), d).After(), x) ==> x == d
    ensures w.IsState(d, Stopped) && d !in w.masked && !w.shutdown ==>
              Asked(w, CleanUp(c, Begin(c, w.Note(Enter(d)), d, manual), d).After(), d)
  {
    hide Stop;
    var b := Begin(c, w.Note(Enter(d)), d, manual);
    StopAsks(c, b, d, false, x);
    StopAsks(c, b, d, false, d);
    AskedComposes(w, b, Stop(c, b, d, false).w, x);
    AskedComposes(w, b, Stop(c, b, d, false).w, d);
  }

  /** The entry of a start and its cleanup: the unit is down for the rest, or stranded. */
  lemma EntryStrands(c: Config, w: World, d: Name, manual: bool)
    requires Fixed(c, w) && Quiet(c, w) && w.IsState(d, Stopped) && d !in w.masked && !w.shutdown
    ensures var s := CleanUp(c, Begin(c, w.Note(Enter(d)), d, manual), d);
            Strands(c, w, s.After()) && s.Continue? == Opens(c, d)
  {
    hide CleanUp, Begin, Asked;
    EntryState(c, w, d, manual);
    forall x
      ensures Asked(w, CleanUp(c, Begin(c, w.Note(Enter(d)), d, manual), d).After(), x) <==> x == d
    {
      EntryAsks(c, w, d, manual, x);
    }
  }

  lemma {:induction false} StepStrands(c: Config, w: World, d: Name, i: Instr)
    requires Fixed(c, w) && Quiet(c, w) && d in w.units && Legal(c, d, [i]) && Opens(c, d)
    ensures Strands(c, w, Step(c, w, d, i).After())
    decreases Rank(c.Edges(), d), 0, 0
  {
    var w' := Step(c, w, d, i).After();
    match i {
      case Depend(r, _) =>
        assert Edge(c.Edges(), d, [i][0].dep);
        RankDecreases(c.Edges(), d, r);
        var w1 := Start(c, w, r, false).w;
        StartStrands(c, w, r, false);
        GivesUp(c, w, w1, w', d);
      case Conflict(x) =>
        var w1 := Stop(c, w, x, true).w;
        StopStrands(c, w, x);
        GivesUp(c, w, w1, w', d);
      case Run(phase, line) => RunStrands(c, w, d, phase, line);
      case AttachLog => AttachStrands(c, w, d);
      case _ => SilentStep(c, w, w');
    }
  }

  /** Giving up a start changes only the unit's own record, and leaves it Stopped. */
  lemma GivesUp(c: Config, w: World, w1: World, w': World, d: Name)
    requires Strands(c, w, w1) && d in w1.units && Opens(c, d) && (w' == w1 || w' == w1.Fail(d))
    ensures Strands(c, w, w')
  {
    SilentStep(c, w1, w');
    StrandsComposes(c, w, w1, w');
  }

  lemma RunStrands(c: Config, w: World, d: Name, phase: Phase, line: string)
    requires Fixed(c, w) && Quiet(c, w) && d in w.units && Opens(c, d)
    ensures Strands(c, w, RunCommand(c, w, d, phase, line).After())
  {
    var o := Perform(c, w, d, Command(phase, Bare(line)));
    SilentStep(c, w, o.w);
    var w1 := Stop(c, o.w, d, true).w;
    StopStrands(c, o.w, d);
    StrandsComposes(c, w, o.w, w1);
    GivesUp(c, w, w1, w1.Fail(d), d);
  }

  lemma AttachStrands(c: Config, w: World, d: Name)
    requires Fixed(c, w) && Quiet(c, w) && d in w.units && Opens(c, d)
    ensures Strands(c, w, Step(c, w, d, AttachLog).After())
  {
    var w' := Step(c, w, d, AttachLog).After();
    assert w' == w.Note(Did(d, OpenLog, w.RunningUnits()));
    forall x
      ensures Asked(w, w', x) <==> x == d
    {
      assert w'.log[|w.log|] == Did(d, OpenLog, w.RunningUnits());
    }
  }

  lemma {:induction false} ExecStrands(c: Config, w: World, d: Name, p: Program)
    requires Fixed(c, w) && Quiet(c, w) && d in w.units && Legal(c, d, p) && Opens(c, d)
    ensures Strands(c, w, Exec(c, w, d, p).w)
    decreases Rank(c.Edges(), d), 0, |p|
  {
    if p == [] || (p[0].Guarded() && Aborted(w, d)) || p[0].Finish? {
      SilentStep(c, w, Exec(c, w, d, p).w);
    } else {
      StepStrands(c, w, d, p[0]);
      var s := Step(c, w, d, p[0]);
      if s.Continue? {
        ExecContinues(c, w, d, p);
        ExecStrands(c, s.w, d, p[1..]);
        StrandsComposes(c, w, s.w, Exec(c, s.w, d, p[1..]).w);
      } else {
        ExecReturns(c, w, d, p);
      }
    }
  }

  lemma AskedNote(w: World, w1: World, e: Event, x: Name)
    requires w.log <= w1.log && !e.Did?
    ensures Asked(w, w1.Note(e), x) <==> Asked(w, w1, x)
  {
    AskedComposes(w, w1, w1.Note(e), x);
  }

  lemma NoteIsSilent(c: Config, w: World, w1: World, e: Event)
    requires Strands(c, w, w1) && !e.Did?
    ensures Strands(c, w, w1.Note(e))
  {
    SilentStep(c, w1, w1.Note(e));
    StrandsComposes(c, w, w1, w1.Note(e));
  }

  /** A start strands exactly the units whose logs it asked for and which do not open. */
  lemma {:induction false} StartStrands(c: Config, w: World, d: Name, manual: bool)
    requires Fixed(c, w) && Quiet(c, w)
    ensures Strands(c, w, Start(c, w, d, manual).w)
    decreases Rank(c.Edges(), d), 1, 0
  {
    hide Start, CleanUp, Exec;
    if d in w.units && !w.shutdown && d !in w.masked && w.IsState(d, Stopped) {
      StartUnfolds(c, w, d, manual);
      EntryStrands(c, w, d, manual);
      var s := CleanUp(c, Begin(c, w.Note(Enter(d)), d, manual), d);
      var p := ProgramOf(c, w.log + [Enter(d)], d);
      if s.Continue? {
        ExecStrands(c, s.w, d, p);
        StrandsComposes(c, w, s.w, Exec(c, s.w, d, p).w);
        NoteIsSilent(c, w, Exec(c, s.w, d, p).w, Returned(d, Exec(c, s.w, d, p).ok));
      } else {
        NoteIsSilent(c, w, s.o.w, Returned(d, s.o.ok));
      }
    } else {
      RefusedIsSilent(c, w, d, manual);
      SilentStep(c, w, Start(c, w, d, manual).w);
    }
  }

  /** A start that does not get past its entry checks changes no state and asks for nothing. */
  lemma RefusedIsSilent(c: Config, w: World, d: Name, manual: bool)
    requires c.Valid() && w.units.Keys == c.defs.Keys
    requires !(d in w.units && !w.shutdown && d !in w.masked && w.units[d].state in {Stopped, Restarting})
    ensures var w' := Start(c, w, d, manual).w;
            && Extends(w, w') && (forall x :: !Asked(w, w', x))
            && forall x :: x in w.units ==> w'.units[x].state == w.units[x].state
  {
    hide Start;
    StartRefused(c, w, d, manual);
  }

  lemma RestartStrands(c: Config, w: World, d: Name)
    requires Fixed(c, w) && Quiet(c, w) && d in w.units
    ensures Strands(c, w, Restart(c, w, d).w)
  {
    hide Stop, Start, Strands;
    if d in w.masked || w.units[d].state == Stopping {
      SilentStep(c, w, w);
    } else {
      StopSame(c, w, d);
      StopStrands(c, w, d);
      StopState(c, w, d);
      var o := Stop(c, w, d, true);
      if o.ok {
        StartStrands(c, o.w, d, true);
        StrandsComposes(c, w, o.w, Start(c, o.w, d, true).w);
      }
    }
  }

  // ---- whole runs

  datatype Call = StartCall(d: Name) | StopCall(d: Name) | RestartCall(d: Name)

  function Apply(c: Config, w: World, call: Call): (w': World)
    requires c.Valid() && w.units.Keys == c.defs.Keys && call.d in w.units
    ensures Extends(w, w')
  {
    match call
    case StartCall(d) => Start(c, w, d, true).w
    case StopCall(d) => Stop(c, w, d, true).w
    case RestartCall(d) => Restart(c, w, d).w
  }

  function ApplyAll(c: Config, w: World, calls: seq<Call>): (w': World)
    requires c.Valid() && w.units.Keys == c.defs.Keys
    requires forall call :: call in calls ==> call.d in w.units
    ensures Extends(w, w')
    decreases |calls|
  {
    if calls == [] then w
    else
      var w1 := Apply(c, w, calls[0]);
      var w2 := ApplyAll(c, w1, calls[1..]);
      ExtendsTransitive(w, w1, w2);
      w2
  }

  /** Every sequence of calls strands exactly the units whose logs were asked for and do not open, whatever the
      commands return, whatever conflicts are stopped on the way, and in whatever order maps iterate. */
  lemma {:induction false} EveryRunStrands(c: Config, w: World, calls: seq<Call>)
    requires Fixed(c, w) && Quiet(c, w)
    requires forall call :: call in calls ==> call.d in w.units
    ensures Strands(c, w, ApplyAll(c, w, calls))
    decreases |calls|
  {
    if calls == [] {
      SilentStep(c, w, w);
    } else {
      var w1 := Apply(c, w, calls[0]);
      match calls[0] {
        case StartCall(d) => StartStrands(c, w, d, true);
        case StopCall(d) => StopStrands(c, w, d);
        case RestartCall(d) => RestartStrands(c, w, d);
      }
      EveryRunStrands(c, w1, calls[1..]);
      StrandsComposes(c, w, w1, ApplyAll(c, w1, calls[1..]));
    }
  }

  /** From a settled world, a run ends settled if and only if every log it asked for opens. */
  lemma RunSettlesIff(c: Config, w: World, calls: seq<Call>)
    requires Fixed(c, w) && Settled(w)
    requires forall call :: call in calls ==> call.d in w.units
    ensures Settled(ApplyAll(c, w, calls)) <==>
              forall x :: x in w.units && Asked(w, ApplyAll(c, w, calls), x) ==> Opens(c, x)
  {
    EveryRunStrands(c, w, calls);
    SettledIff(c, w, ApplyAll(c, w, calls));
  }

  lemma SettledIff(c: Config, w: World, w': World)
    requires Settled(w) && Strands(c, w, w')
    ensures Settled(w') <==> forall x :: x in w.units && Asked(w, w', x) ==> Opens(c, x)
  {
    assert forall x :: x in w'.units ==> (w'.units[x].state == Stopping <==> w'.IsState(x, Stopping));
  }

  /** With logs that open, every sequence of start, stop and restart calls leaves every unit Running or Stopped. */
  lemma EveryRunSettles(c: Config, w: World, calls: seq<Call>)
    requires Ready(c, w) && Settled(w)
    requires forall call :: call in calls ==> call.d in w.units
    ensures Settled(ApplyAll(c, w, calls))
  {
    RunSettlesIff(c, w, calls);
  }

  lemma StartSettles(c: Config, w: World, d: Name, manual: bool)
    requires Ready(c, w) && Settled(w)
    ensures Settled(Start(c, w, d, manual).w)
  {
    StartStrands(c, w, d, manual);
    SettledIff(c, w, Start(c, w, d, manual).w);
  }

  lemma RestartSettles(c: Config, w: World, d: Name)
    requires Ready(c, w) && Settled(w) && d in w.units
    ensures Settled(Restart(c, w, d).w)
  {
    RestartStrands(c, w, d);
    SettledIff(c, w, Restart(c, w, d).w);
  }

  /** The starts at boot, one wanted unit after the other; one that is not loaded is passed over. */
  function StartEach(c: Config, w: World, wanted: seq<Name>): (w': World)
    requires c.Valid() && w.units.Keys == c.defs.Keys
    ensures Extends(w, w')
    decreases |wanted|
  {
    if wanted == [] then w
    else
      var w1 := Start(c, w, wanted[0], true).w;
      var w2 := StartEach(c, w1, wanted[1..]);
      ExtendsTransitive(w, w1, w2);
      w2
  }

  /** A boot strands exactly the units whose logs it asked for and which do not open. */
  lemma {:induction false} BootStrands(c: Config, w: World, wanted: seq<Name>)
    requires Fixed(c, w) && Quiet(c, w)
    ensures Strands(c, w, StartEach(c, w, wanted))
    decreases |wanted|
  {
    if wanted == [] {
      SilentStep(c, w, w);
    } else {
      var w1 := Start(c, w, wanted[0], true).w;
      StartStrands(c, w, wanted[0], true);
      BootStrands(c, w1, wanted[1..]);
      StrandsComposes(c, w, w1, StartEach(c, w1, wanted[1..]));
    }
  }

  // ---- which logs a start can ask for

  /** x is d, or reached from d along start edges, or in conflict with such a unit. */
  ghost predicate Touches(c: Config, d: Name, x: Name) {
    Within(c, d, x) || exists y :: Within(c, d, y) && y in c.defs && x in c.defs[y].Names(Conflicts)
  }

  ghost predicate Within(c: Config, d: Name, x: Name) {
    x == d || Reaches(c.Edges(), d, x)
  }

  lemma TouchesItself(c: Config, d: Name)
    ensures Touches(c, d, d)
  {
    assert Within(c, d, d);
  }

  lemma TouchesOn(c: Config, d: Name, r: Name, x: Name)
    requires Edge(c.Edges(), d, r) && Touches(c, r, x)
    ensures Touches(c, d, x)
  {
    EdgeReaches(c.Edges(), d, r);
    forall y | Within(c, r, y)
      ensures Within(c, d, y)
    {
      if y != r {
        EdgeThenReaches(c.Edges(), d, r, y);
      }
    }
  }

  /** The conflicts a program stops are its unit's. */
  ghost predicate OwnConflicts(c: Config, d: Name, p: Program)
    requires d in c.defs
  {
    forall i :: i in p && i.Conflict? ==> i.other in c.defs[d].Names(Conflicts)
  }

  lemma ProgramConflicts(c: Config, h: History, d: Name)
    requires c.Valid() && d in c.defs
    ensures OwnConflicts(c, d, ProgramOf(c, h, d))
  {
    var o := c.order(h, d, Conflicts);
    var p := ProgramOf(c, h, d);
    forall i | i in p && i.Conflict?
      ensures i.other in c.defs[d].Names(Conflicts)
    {
      assert i in ConflictsWith(o);
    }
  }

  lemma {:induction false} StepAsksWithin(c: Config, w: World, d: Name, i: Instr, x: Name)
    requires c.Valid() && w.units.Keys == c.defs.Keys && d in w.units && Legal(c, d, [i]) && OwnConflicts(c, d, [i])
    requires Asked(w, Step(c, w, d, i).After(), x)
    ensures Touches(c, d, x)
    decreases Rank(c.Edges(), d), 0, 0
  {
    match i {
      case Depend(r, _) =>
        assert Edge(c.Edges(), d, [i][0].dep);
        RankDecreases(c.Edges(), d, r);
        StartAsksWithin(c, w, r, false, x);
        TouchesOn(c, d, r, x);
      case Conflict(y) =>
        assert i in [i];
        StopAsks(c, w, y, true, x);
        assert Within(c, d, d);
      case Run(phase, line) =>
        var o := Perform(c, w, d, Command(phase, Bare(line)));
        StopAsks(c, o.w, d, true, x);
        AskedComposes(w, o.w, Stop(c, o.w, d, true).w, x);
      case _ =>
    }
  }

  lemma {:induction false} ExecAsksWithin(c: Config, w: World, d: Name, p: Program, x: Name)
    requires c.Valid() && w.units.Keys == c.defs.Keys && d in w.units && Legal(c, d, p) && OwnConflicts(c, d, p)
    requires Asked(w, Exec(c, w, d, p).w, x)
    ensures Touches(c, d, x)
    decreases Rank(c.Edges(), d), 0, |p|
  {
    if p != [] && !(p[0].Guarded() && Aborted(w, d)) && !p[0].Finish? {
      var s := Step(c, w, d, p[0]);
      assert forall i :: i in [p[0]] ==> i in p;
      if Asked(w, s.After(), x) {
        StepAsksWithin(c, w, d, p[0], x);
      } else if s.Continue? {
        ExecContinues(c, w, d, p);
        AskedComposes(w, s.w, Exec(c, s.w, d, p[1..]).w, x);
        ExecAsksWithin(c, s.w, d, p[1..], x);
      } else {
        ExecReturns(c, w, d, p);
      }
    }
  }

  /** A start asks only for the logs of units reached along start edges and of their conflicts. */
  lemma {:induction false} StartAsksWithin(c: Config, w: World, d: Name, manual: bool, x: Name)
    requires c.Valid() && w.units.Keys == c.defs.Keys && Asked(w, Start(c, w, d, manual).w, x)
    ensures Touches(c, d, x)
    decreases Rank(c.Edges(), d), 1, 0
  {
    hide Start, CleanUp, Begin, Exec, Asked, Touches;
    if d in w.units && !w.shutdown && d !in w.masked && w.units[d].state in {Stopped, Restarting} {
      StartUnfolds(c, w, d, manual);
      EntryAsks(c, w, d, manual, x);
      var s := CleanUp(c, Begin(c, w.Note(Enter(d)), d, manual), d);
      var p := ProgramOf(c, w.log + [Enter(d)], d);
      var o := if s.Continue? then Exec(c, s.w, d, p) else s.o;
      AskedNote(w, o.w, Returned(d, o.ok), x);
      AskedComposes(w, s.After(), o.w, x);
      if Asked(w, s.After(), x) {
        TouchesItself(c, d);
      } else if s.Continue? {
        ProgramConflicts(c, w.log + [Enter(d)], d);
        ExecAsksWithin(c, s.w, d, p, x);
      }
    } else {
      RefusedIsSilent(c, w, d, manual);
    }
  }

  /** What a caller can look at beforehand: if the logs of all units a start touches open, it leaves every
      unit settled. */
  lemma TouchedLogsOpenSettles(c: Config, w: World, d: Name, manual: bool)
    requires Fixed(c, w) && Settled(w) && forall x :: x in w.units && Touches(c, d, x) ==> Opens(c, x)
    ensures Settled(Start(c, w, d, manual).w)
  {
    var w' := Start(c, w, d, manual).w;
    StartStrands(c, w, d, manual);
    forall x | x in w.units && Asked(w, w', x)
      ensures Opens(c, x)
    {
      StartAsksWithin(c, w, d, manual, x);
    }
    SettledIff(c, w, w');
  }

  /** And if its own log does not open, a start that gets past its entry checks strands its own unit. */
  lemma OwnLogStrands(c: Config, w: World, d: Name, manual: bool)
    requires Fixed(c, w) && Quiet(c, w) && w.IsState(d, Stopped) && d !in w.masked && !w.shutdown && !Opens(c, d)
    ensures Start(c, w, d, manual).w.IsState(d, Stopping) && !Start(c, w, d, manual).ok
  {
    hide Exec, ProgramOf;
    StartUnfolds(c, w, d, manual);
    EntryStrands(c, w, d, manual);
  }

  /** What one stop leaves, and what a stranded unit answers: start reports success and does nothing, restart is
      refused, and a stop gets it out as soon as its log opens. */
  lemma UnopenableLogStrands(c: Config, w: World, d: Name)
    requires c.Valid() && w.units.Keys == c.defs.Keys && !w.shutdown && d in w.units && d !in w.masked
    ensures Stop(c, w, d, true).w.IsState(d, Stopping) <==> !c.outcome(w.log, d, OpenLog)
    ensures Stop(c, w, d, true).w.IsState(d, Stopped) <==> c.outcome(w.log, d, OpenLog)
    ensures w.IsState(d, Stopping) ==>
              && Start(c, w, d, true).ok && Start(c, w, d, true).w.units == w.units
              && !Restart(c, w, d).ok && Restart(c, w, d).w == w
  {
  }
}
