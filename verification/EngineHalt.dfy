/** What a start does when one of its unit's own start commands is answered no. */
module EngineHalt {
  import opened Graph
  import opened Engine
  import opened EngineActs
  import opened EngineOrder
  import opened EngineSuccess
  import opened EngineBlock

  /** The lines of a unit file that one start command may stand for. */
  function LinesOf(def: Def, phase: Phase): seq<string> {
    match phase
    case ExecStartPre => def.startPre
    case ExecStart => def.start
    case ExecStartPost => def.startPost
    case _ => []
  }

  /** The event at position i is a start command of d, not one whose line has a leading dash, and it is refused. */
  ghost predicate Refused(c: Config, log: History, i: nat, d: Name)
    requires i < |log| && d in c.defs
  {
    && log[i].Did? && log[i].d == d && OfStart(log[i].act) && !c.outcome(log[..i], d, log[i].act)
    && "-" + log[i].act.line !in LinesOf(c.defs[d], log[i].act.phase)
  }

  /** What must follow a refusal: after a condition nothing, and the start succeeds; after any other command the
      unit's stop, if the log opens, and the start fails. Either way the unit is down. */
  ghost predicate Halted(c: Config, o: Outcome, i: nat, d: Name)
    requires i < |o.w.log| && d in c.defs && o.w.log[i].Did? && o.w.log[i].act.Command?
  {
    var log := o.w.log;
    if log[i].act.phase == ExecCondition then o.ok && o.w.IsState(d, Stopped) && !o.w.units[d].failed && i == |log| - 1
    else
      && !o.ok && o.w.IsState(d, Stopped) && o.w.units[d].failed
      && (c.outcome(log[..i + 1], d, OpenLog) && d !in o.w.masked ==>
            log[i + 1..] == Dids(d, [OpenLog] + StopDeeds(c.defs[d]), log[i].running - {d}))
  }

  /** Every refusal since `from` is the end. */
  ghost predicate Halts(c: Config, o: Outcome, from: nat, d: Name)
    requires d in c.defs
  {
    forall i :: from <= i < |o.w.log| && Refused(c, o.w.log, i, d) ==> Halted(c, o, i, d)
  }

  /** No start command of x among the events between w and w'. */
  ghost predicate NoneOf(w: World, w': World, x: Name) {
    && w.log <= w'.log
    && forall i :: |w.log| <= i < |w'.log| && w'.log[i].Did? && w'.log[i].d == x ==> !OfStart(w'.log[i].act)
  }

  lemma {:induction false} NothingRanNone(log: History, x: Name)
    requires Ran(log, x) == []
    ensures forall i :: 0 <= i < |log| && log[i].Did? && log[i].d == x ==> !OfStart(log[i].act)
    decreases |log|
  {
    if log != [] {
      NothingRanNone(log[1..], x);
      assert forall i :: 0 < i < |log| ==> log[i] == log[1..][i - 1];
    }
  }

  lemma NoneSince(w: World, w': World, x: Name)
    requires w.log <= w'.log && RanSince(w, w', x) == []
    ensures NoneOf(w, w', x)
  {
    NothingRanNone(w'.log[|w.log|..], x);
    assert forall i :: |w.log| <= i < |w'.log| ==> w'.log[i] == w'.log[|w.log|..][i - |w.log|];
  }

  /** Each Run of the program stands for a line of its unit. */
  ghost predicate FromFile(def: Def, p: Program) {
    forall i :: i in p && i.Run? ==> i.phase in {ExecStartPre, ExecStart, ExecStartPost} && i.line in LinesOf(def, i.phase)
  }

  lemma FromFileConcat(def: Def, p: Program, q: Program)
    requires FromFile(def, p) && FromFile(def, q)
    ensures FromFile(def, p + q)
  {
  }

  lemma ProgramFromFile(c: Config, h: History, d: Name)
    requires c.Valid() && d in c.defs
    ensures FromFile(c.defs[d], ProgramOf(c, h, d))
  {
    hide DependPart;
    var def := c.defs[d];
    DependPartShape(c, h, d);
    ConflictPartShape(c, h, d);
    var conflicts := ConflictsWith(c.order(h, d, Conflicts));
    CommandsFromFile(def);
    FromFileConcat(def, conflicts, CommandPart(def));
    FromFileConcat(def, DependPart(c, h, d), conflicts + CommandPart(def));
    FromFileConcat(def, Conditions(def.conditions), DependPart(c, h, d) + (conflicts + CommandPart(def)));
    FromFileConcat(def, [Prepare, AttachLog],
                   Conditions(def.conditions) + (DependPart(c, h, d) + (conflicts + CommandPart(def))));
  }

  lemma CommandsFromFile(def: Def)
    ensures FromFile(def, CommandPart(def))
  {
    FromFileConcat(def, Runs(ExecStartPost, def.startPost), [Finish]);
    FromFileConcat(def, Runs(ExecStart, def.start), Runs(ExecStartPost, def.startPost) + [Finish]);
    FromFileConcat(def, Runs(ExecStartPre, def.startPre),
                   Runs(ExecStart, def.start) + (Runs(ExecStartPost, def.startPost) + [Finish]));
  }

  // ---- one instruction

  lemma RunHalts(c: Config, w: World, d: Name, phase: Phase, line: string)
    requires w.units.Keys == c.defs.Keys && d in w.units && phase in {ExecStartPre, ExecStart, ExecStartPost}
    requires line in LinesOf(c.defs[d], phase)
    ensures var s := RunCommand(c, w, d, phase, line);
            && |w.log| < |s.After().log| && s.After().log[|w.log|] == Did(d, Command(phase, Bare(line)), w.RunningUnits())
            && (forall i :: |w.log| < i < |s.After().log| ==> !Refused(c, s.After().log, i, d))
            && (Refused(c, s.After().log, |w.log|, d) ==> s.Return? && Halted(c, s.o, |w.log|, d))
  {
    hide Stop, StopDeeds;
    var act := Command(phase, Bare(line));
    var e := Did(d, act, w.RunningUnits());
    var o := Perform(c, w, d, act);
    if o.ok || !Fatal(line) {
      if !Fatal(line) {
        assert "-" + line[1..] == line;
      }
      assert o.w.log[..|w.log|] == w.log;
    } else {
      var w1 := Stop(c, o.w, d, true).w;
      StopRanNothing(c, o.w, d, true, d);
      NoneSince(o.w, w1, d);
      assert w1.log[|w.log|] == e && w1.log[..|w.log|] == w.log && w1.log[..|w.log| + 1] == o.w.log;
      StopFollows(c, o.w, d);
    }
  }

  /** What a stop adds when the log opens and the unit is not masked. */
  lemma StopFollows(c: Config, w: World, d: Name)
    requires w.units.Keys == c.defs.Keys && d in w.units
    ensures c.outcome(w.log, d, OpenLog) && d !in w.masked ==>
              Stop(c, w, d, true).w.log[|w.log|..] == Dids(d, [OpenLog] + StopDeeds(c.defs[d]), w.RunningUnits() - {d})
  {
    hide Stop, StopDeeds;
    if c.outcome(w.log, d, OpenLog) && d !in w.masked {
      StopDoes(c, w, d, true);
    }
  }

  lemma StepHalts(c: Config, w: World, d: Name, i: Instr)
    requires Usable(c, w) && d in w.units && Legal(c, d, [i]) && FromFile(c.defs[d], [i])
    ensures var s := Step(c, w, d, i);
            forall k :: |w.log| <= k < |s.After().log| && Refused(c, s.After().log, k, d) ==>
              s.Return? && Halted(c, s.o, k, d)
  {
    hide Start, Stop, RunCommand, Ran, LinesOf, StopDeeds;
    if i.Run? {
      assert i in [i];
      RunHalts(c, w, d, i.phase, i.line);
    } else if i.Condition? {
      assert Perform(c, w, d, Command(ExecCondition, i.line)).w.log[..|w.log|] == w.log;
    } else {
      StepRan(c, w, d, i, d);
      NoneSince(w, Step(c, w, d, i).After(), d);
    }
  }

  lemma NotBelowItself(c: Config, d: Name)
    requires c.Valid()
    ensures !Reaches(c.Edges(), d, d)
  {
  }

  // ---- a whole start

  lemma {:induction false} ExecHalts(c: Config, w: World, d: Name, p: Program)
    requires Usable(c, w) && d in w.units && Legal(c, d, p) && FromFile(c.defs[d], p)
    ensures Halts(c, Exec(c, w, d, p), |w.log|, d)
    decreases |p|
  {
    hide Refused, Halted;
    if p == [] || (p[0].Guarded() && Aborted(w, d)) || p[0].Finish? {
      assert Exec(c, w, d, p).w.log == w.log;
    } else {
      assert forall i :: i in [p[0]] ==> i in p;
      StepHalts(c, w, d, p[0]);
      var s := Step(c, w, d, p[0]);
      if s.Continue? {
        ExecContinues(c, w, d, p);
        ExecHalts(c, s.w, d, p[1..]);
        var o := Exec(c, s.w, d, p[1..]);
        forall i | |w.log| <= i < |s.w.log|
          ensures !Refused(c, o.w.log, i, d)
        {
          RefusedSame(c, s.w.log, o.w.log, i, d);
        }
      } else {
        ExecReturns(c, w, d, p);
      }
    }
  }

  lemma RefusedSame(c: Config, log: History, log': History, i: nat, d: Name)
    requires i < |log| && log <= log' && d in c.defs
    ensures Refused(c, log', i, d) <==> Refused(c, log, i, d)
  {
    assert log'[..i] == log[..i];
  }

  /** In any start whatsoever: after one of the unit's own conditions is answered no, nothing more happens and the
      start succeeds with the unit Stopped; after one of its ExecStartPre, ExecStart or ExecStartPost commands
      without a leading dash is, its whole stop follows, if its log opens, then nothing more, and the start fails
      with the unit Stopped and an error recorded. */
  lemma StartHalts(c: Config, w: World, d: Name, manual: bool, i: nat)
    requires Usable(c, w) && d in w.units && |w.log| <= i < |Start(c, w, d, manual).w.log|
    requires Refused(c, Start(c, w, d, manual).w.log, i, d)
    ensures var o := Start(c, w, d, manual);
            var last := |o.w.log| - 1;
            && o.w.log[last] == Returned(d, o.ok) && i < last && o.w.IsState(d, Stopped)
            && o.ok == (o.w.log[i].act.phase == ExecCondition) && o.w.units[d].failed == !o.ok
            && (o.ok ==> i + 1 == last)
            && (!o.ok && c.outcome(o.w.log[..i + 1], d, OpenLog) ==>
                  o.w.log[i + 1..last] == Dids(d, [OpenLog] + StopDeeds(c.defs[d]), o.w.log[i].running - {d}))
  {
    hide Start, CleanUp, Begin, Exec, Ran, StopDeeds, LinesOf;
    if !w.shutdown && d !in w.masked && w.units[d].state in {Stopped, Restarting} {
      StartUnfolds(c, w, d, manual);
      var s := CleanUp(c, Begin(c, w.Note(Enter(d)), d, manual), d);
      EntryRan(c, w, d, manual, d);
      NoneSince(w, s.After(), d);
      var h := w.log + [Enter(d)];
      var o := if s.Continue? then Exec(c, s.w, d, ProgramOf(c, h, d)) else s.o;
      assert i < |o.w.log| && o.w.log[i] == Start(c, w, d, manual).w.log[i];
      assert i >= |s.After().log|;
      ProgramFromFile(c, h, d);
      ExecHalts(c, s.w, d, ProgramOf(c, h, d));
      RefusedSame(c, o.w.log, Start(c, w, d, manual).w.log, i, d);
      Wrapped(o.w.log, Returned(d, o.ok), i);
    } else {
      StartRefused(c, w, d, manual);
      RefusedRan(c, w, d, manual, d);
      NoneSince(w, Start(c, w, d, manual).w, d);
    }
  }

  lemma Wrapped(log: History, e: Event, i: nat)
    requires i < |log|
    ensures var log' := log + [e];
            log'[..i + 1] == log[..i + 1] && log'[i + 1..|log'| - 1] == log[i + 1..] && log'[|log'| - 1] == e
  {
  }

  // ---- how a start begins

  /** A start of a unit that is down and may be started first stops what is left of the previous run, with all its
      stop commands, when the log opens; only then it asks for its environment, and then for its log. */
  lemma StartBegins(c: Config, w: World, d: Name, manual: bool)
    requires Usable(c, w) && d in w.units && !w.shutdown && d !in w.masked && w.units[d].state in {Stopped, Restarting}
    requires c.outcome(w.log + [Enter(d)], d, OpenLog)
    ensures var log := Start(c, w, d, manual).w.log;
            var cleaned := w.log + [Enter(d)] + Dids(d, [OpenLog] + StopDeeds(c.defs[d]), w.RunningUnits());
            && cleaned + [Did(d, ResolveEnvironment, w.RunningUnits())] <= log
            && (c.outcome(cleaned, d, ResolveEnvironment) ==>
                  cleaned + [Did(d, ResolveEnvironment, w.RunningUnits())] + [Did(d, OpenLog, w.RunningUnits())] <= log)
  {
    hide Start, CleanUp, Exec, StopDeeds, Dids, Begin, ProgramOf;
    var w1 := w.Note(Enter(d));
    var b := Begin(c, w1, d, manual);
    var p := ProgramOf(c, w1.log, d);
    StartUnfolds(c, w, d, manual);
    BeginsDown(c, w, d, manual);
    CleanUpOpens(c, b, d);
    var s := CleanUp(c, b, d);
    ProgramBegins(c, w1.log, d);
    FirstTwo(c, s.w, d, p);
  }

  lemma BeginsDown(c: Config, w: World, d: Name, manual: bool)
    requires w.units.Keys == c.defs.Keys && d in w.units && w.units[d].state in {Stopped, Restarting}
    ensures var b := Begin(c, w.Note(Enter(d)), d, manual);
            && b.log == w.log + [Enter(d)] && b.units.Keys == w.units.Keys && b.masked == w.masked
            && b.shutdown == w.shutdown && b.units[d].state in {Starting, Restarting} && b.RunningUnits() == w.RunningUnits()
  {
    var b := Begin(c, w.Note(Enter(d)), d, manual);
    assert forall x :: b.IsState(x, Running) <==> w.IsState(x, Running);
  }

  lemma ProgramBegins(c: Config, h: History, d: Name)
    requires d in c.defs
    ensures var p := ProgramOf(c, h, d); |p| >= 2 && p[0] == Prepare && p[1] == AttachLog
  {
  }

  lemma CleanUpOpens(c: Config, w: World, d: Name)
    requires w.units.Keys == c.defs.Keys && d in w.units && d !in w.masked && !w.shutdown
    requires w.units[d].state in {Starting, Restarting} && c.outcome(w.log, d, OpenLog)
    ensures var s := CleanUp(c, w, d);
            && s.Continue? && s.w.log == w.log + Dids(d, [OpenLog] + StopDeeds(c.defs[d]), w.RunningUnits())
            && s.w.RunningUnits() == w.RunningUnits() && s.w.units.Keys == w.units.Keys
  {
    hide Stop, StopDeeds, Dids;
    StopDoes(c, w, d, false);
    assert w.RunningUnits() - {d} == w.RunningUnits();
    var s := CleanUp(c, w, d);
    assert forall x :: s.w.IsState(x, Running) <==> w.IsState(x, Running);
  }

  lemma FirstTwo(c: Config, w: World, d: Name, p: Program)
    requires Usable(c, w) && d in w.units && Legal(c, d, p) && |p| >= 2 && p[0] == Prepare && p[1] == AttachLog
    ensures var e := Did(d, ResolveEnvironment, w.RunningUnits());
            && w.log + [e] <= Exec(c, w, d, p).w.log
            && (c.outcome(w.log, d, ResolveEnvironment) ==>
                  w.log + [e] + [Did(d, OpenLog, w.RunningUnits())] <= Exec(c, w, d, p).w.log)
  {
    var s := Step(c, w, d, Prepare);
    assert p[1..][0] == AttachLog;
    if s.Continue? {
      ExecContinues(c, w, d, p);
      var s2 := Step(c, s.w, d, AttachLog);
      if s2.Continue? {
        ExecContinues(c, s.w, d, p[1..]);
      } else {
        ExecReturns(c, s.w, d, p[1..]);
      }
    } else {
      ExecReturns(c, w, d, p);
    }
  }
}
