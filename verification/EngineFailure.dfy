/** Failure propagation is exact: a start fails just when its unit, or some unit behind it along Requires and
    BindsTo edges through units that are not running and whose conditions hold, fails itself. */
module EngineFailure {
  import opened Graph
  import opened Engine
  import opened EngineSettled
  import opened EngineOrder

  /** Logs open, no unit declares Conflicts, and every command has one fixed outcome. */
  ghost predicate Calm(c: Config) {
    && LogsOpen(c)
    && (forall d :: d in c.defs ==> c.defs[d].Names(Conflicts) == {})
    && forall h, h', d, act :: c.outcome(h, d, act) == c.outcome(h', d, act)
  }

  ghost predicate FatalLine(c: Config, d: Name, phase: Phase, line: string) {
    Fatal(line) && !c.outcome([], d, Command(phase, Bare(line)))
  }

  /** Every ExecCondition holds; otherwise the start ends early, without an error. */
  ghost predicate CondsMet(c: Config, d: Name) {
    d in c.defs && forall line :: line in c.defs[d].conditions ==> c.outcome([], d, Command(ExecCondition, line))
  }

  /** The unit's own part of the start fails. */
  ghost predicate OwnFails(c: Config, d: Name)
    requires d in c.defs
  {
    !c.outcome([], d, ResolveEnvironment) || (CondsMet(c, d) && CommandsFail(c, d))
  }

  ghost predicate CommandsFail(c: Config, d: Name)
    requires d in c.defs
  {
    || (exists line :: line in c.defs[d].startPre && FatalLine(c, d, ExecStartPre, line))
    || (exists line :: line in c.defs[d].start && FatalLine(c, d, ExecStart, line))
    || (exists line :: line in c.defs[d].startPost && FatalLine(c, d, ExecStartPost, line))
  }

  /** A masked unit fails even when it is running; any other only when it has to be started. */
  ghost predicate FailsHere(c: Config, w: World, d: Name) {
    d in c.defs && (d in w.masked || (!w.IsState(d, Running) && OwnFails(c, d)))
  }

  ghost function HardGraph(c: Config): Digraph<Name> {
    map d | d in c.defs :: c.defs[d].Hard()
  }

  ghost predicate FailingPath(c: Config, w: World, d: Name, p: seq<Name>) {
    && IsPath(HardGraph(c), p) && p[0] == d
    && (forall i :: 0 <= i < |p| - 1 ==> !w.IsState(p[i], Running) && CondsMet(c, p[i]))
    && FailsHere(c, w, p[|p| - 1])
  }

  ghost predicate WillFail(c: Config, w: World, d: Name) {
    exists p :: FailingPath(c, w, d, p)
  }

  lemma WillFailUnfolds(c: Config, w: World, d: Name)
    ensures WillFail(c, w, d) <==>
            FailsHere(c, w, d) ||
            (CondsMet(c, d) && !w.IsState(d, Running) &&
             exists r :: r in c.defs[d].Names(Requires) + c.defs[d].Names(BindsTo) && WillFail(c, w, r))
  {
    if WillFail(c, w, d) {
      var p :| FailingPath(c, w, d, p);
      if |p| > 1 {
        assert Edge(HardGraph(c), p[0], p[1]);
        assert FailingPath(c, w, p[1], p[1..]);
      }
    }
    if FailsHere(c, w, d) {
      assert FailingPath(c, w, d, [d]);
    }
    if CondsMet(c, d) && !w.IsState(d, Running) && exists r :: r in c.defs[d].Hard() && WillFail(c, w, r) {
      var r :| r in c.defs[d].Hard() && WillFail(c, w, r);
      var p :| FailingPath(c, w, r, p);
      PrependFailing(c, w, d, r, p);
    }
  }

  lemma PrependFailing(c: Config, w: World, d: Name, r: Name, p: seq<Name>)
    requires CondsMet(c, d) && !w.IsState(d, Running) && r in c.defs[d].Hard() && FailingPath(c, w, r, p)
    ensures FailingPath(c, w, d, [d] + p)
  {
    var q := [d] + p;
    forall i, j | 0 <= i < |q| - 1 && j == i + 1
      ensures Edge(HardGraph(c), q[i], q[j])
    {
      if i > 0 {
        assert Edge(HardGraph(c), p[i - 1], p[j - 1]);
      }
    }
  }

  /** What every part of a start keeps: running units stay up, and only units whose conditions hold and that do
      not fail come up. */
  ghost predicate Progress(c: Config, w: World, w': World) {
    && Extends(w, w') && Settled(w')
    && (forall x :: w.IsState(x, Running) ==> w'.IsState(x, Running))
    && forall x :: w'.IsState(x, Running) && !w.IsState(x, Running) ==> CondsMet(c, x) && !WillFail(c, w, x)
  }

  /** Progress never changes the answer for a unit, so it may be read in the initial world. */
  lemma Stable(c: Config, w: World, w': World, d: Name)
    requires Progress(c, w, w')
    ensures WillFail(c, w', d) <==> WillFail(c, w, d)
  {
    if WillFail(c, w, d) {
      var p :| FailingPath(c, w, d, p);
      forall i | 0 <= i < |p|
        ensures w'.IsState(p[i], Running) ==> w.IsState(p[i], Running)
      {
        SuffixFails(c, w, d, p, i);
      }
      assert FailingPath(c, w', d, p);
    }
    if WillFail(c, w', d) {
      var p :| FailingPath(c, w', d, p);
      assert FailingPath(c, w, d, p);
    }
  }

  lemma SuffixFails(c: Config, w: World, d: Name, p: seq<Name>, i: nat)
    requires FailingPath(c, w, d, p) && i < |p|
    ensures WillFail(c, w, p[i])
  {
    assert FailingPath(c, w, p[i], p[i..]);
  }

  lemma ProgressComposes(c: Config, w0: World, w1: World, w2: World)
    requires Progress(c, w0, w1) && Progress(c, w1, w2)
    ensures Progress(c, w0, w2)
  {
    ExtendsTransitive(w0, w1, w2);
    forall x | w2.IsState(x, Running) && !w0.IsState(x, Running)
      ensures CondsMet(c, x) && !WillFail(c, w0, x)
    {
      Stable(c, w0, w1, x);
    }
  }

  /** Every return recorded between w and w' agrees with the verdict in w. */
  ghost predicate Tells(c: Config, w: World, w': World) {
    && w.log <= w'.log
    && forall i :: |w.log| <= i < |w'.log| && w'.log[i].Returned? ==> w'.log[i].ok == !WillFail(c, w, w'.log[i].d)
  }

  lemma TellsComposes(c: Config, w0: World, w1: World, w2: World)
    requires Progress(c, w0, w1) && Tells(c, w0, w1) && Tells(c, w1, w2)
    ensures Tells(c, w0, w2)
  {
    forall i | |w0.log| <= i < |w2.log| && w2.log[i].Returned?
      ensures w2.log[i].ok == !WillFail(c, w0, w2.log[i].d)
    {
      if i < |w1.log| {
        assert w1.log[i] == w2.log[i];
      } else {
        Stable(c, w0, w1, w2.log[i].d);
      }
    }
  }

  /** Both at once. */
  ghost predicate Faithful(c: Config, w: World, w': World) {
    Progress(c, w, w') && Tells(c, w, w')
  }

  lemma FaithfulComposes(c: Config, w0: World, w1: World, w2: World)
    requires Faithful(c, w0, w1) && Faithful(c, w1, w2)
    ensures Faithful(c, w0, w2)
  {
    ProgressComposes(c, w0, w1, w2);
    TellsComposes(c, w0, w1, w2);
  }

  ghost predicate SameStates(w: World, w': World) {
    && Extends(w, w')
    && (forall x :: x in w.units ==> w'.units[x].state == w.units[x].state)
    && forall i :: |w.log| <= i < |w'.log| ==> !w'.log[i].Returned?
  }

  lemma SameStatesFaithful(c: Config, w: World, w': World)
    requires Settled(w) && SameStates(w, w')
    ensures Faithful(c, w, w')
  {
  }

  // ---- stop commands record no returns

  lemma {:induction false} StopLinesReturnNothing(c: Config, w: World, d: Name, phase: Phase, lines: seq<string>)
    requires d in w.units
    ensures SameStates(w, RunStopLines(c, w, d, phase, lines))
    decreases |lines|
  {
    if lines != [] {
      var o := Perform(c, w, d, Command(phase, lines[0]));
      StopLinesReturnNothing(c, if o.ok then o.w else o.w.SetFailed(d, true), d, phase, lines[1..]);
    }
  }

  lemma SameStatesComposes(w0: World, w1: World, w2: World)
    requires SameStates(w0, w1) && SameStates(w1, w2)
    ensures SameStates(w0, w2)
  {
    forall i | |w0.log| <= i < |w2.log|
      ensures !w2.log[i].Returned?
    {
      if i < |w1.log| {
        assert w1.log[i] == w2.log[i];
      }
    }
  }

  lemma RunStopReturnsNothing(c: Config, w: World, d: Name)
    requires w.units.Keys == c.defs.Keys && d in w.units
    ensures SameStates(w, RunStop(c, w, d))
  {
    hide RunStopLines;
    var w1 := RunStopLines(c, w, d, ExecStopPre, c.defs[d].stopPre);
    StopLinesReturnNothing(c, w, d, ExecStopPre, c.defs[d].stopPre);
    var w2 := RunStopLines(c, w1, d, ExecStop, c.defs[d].stop);
    StopLinesReturnNothing(c, w1, d, ExecStop, c.defs[d].stop);
    SameStatesComposes(w, w1, w2);
    var w3 := RunStopLines(c, w2, d, ExecStopPost, c.defs[d].stopPost);
    StopLinesReturnNothing(c, w2, d, ExecStopPost, c.defs[d].stopPost);
    SameStatesComposes(w, w2, w3);
    SameStatesComposes(w, w3, RunStop(c, w, d));
  }

  /** Stopping a unit that is down leaves every state as it was. */
  lemma StopOfStopped(c: Config, w: World, d: Name, announce: bool)
    requires Ready(c, w) && w.IsState(d, Stopped) && d !in w.masked
    ensures SameStates(w, Stop(c, w, d, announce).w)
  {
    hide RunStop;
    var w1 := w.SetState(d, Stopping);
    var o := Perform(c, w1, d, OpenLog);
    RunStopReturnsNothing(c, o.w, d);
    SameStatesComposes(w1, o.w, RunStop(c, o.w, d));
  }

  lemma SetSameStates(w: World, w1: World, w': World, d: Name, b: bool)
    requires SameStates(w1, w') && d in w.units
    requires w1 == w || w1 == w.SetState(d, Stopping)
    ensures SameStates(w.SetState(d, Stopped), w'.SetState(d, Stopped).SetFailed(d, b))
  {
  }

  lemma CleanUpFaithful(c: Config, w: World, d: Name)
    requires Ready(c, w) && d in w.units && d !in w.masked && w.units[d].state in {Starting, Restarting}
    ensures var s := CleanUp(c, w, d); s.Continue? && SameStates(w.SetState(d, Stopped), s.w)
  {
    var w1 := if !w.IsState(d, Restarting) then w.SetState(d, Stopping) else w;
    var o := Perform(c, w1, d, OpenLog);
    CleanUpUnfolds(c, w, d);
    RunStopReturnsNothing(c, o.w, d);
    SameStatesComposes(w1, o.w, RunStop(c, o.w, d));
    SetSameStates(w, w1, RunStop(c, o.w, d), d, false);
  }

  lemma FinishIsLast(p: Program)
    requires Plain(p) && p[0].Finish?
    ensures p == [Finish]
  {
  }

  // ---- one instruction

  /** The instruction makes the start of d give up. */
  ghost predicate Bad(c: Config, w: World, d: Name, i: Instr) {
    match i
    case Prepare => !c.outcome([], d, ResolveEnvironment)
    case Depend(r, hard) => hard && WillFail(c, w, r)
    case Run(phase, line) => FatalLine(c, d, phase, line)
    case _ => false
  }

  ghost predicate Plain(p: Program) {
    && p != [] && p[|p| - 1].Finish?
    && forall i :: 0 <= i < |p| - 1 ==> !p[i].Finish? && !p[i].Conflict?
  }

  /** The instruction ends the start of d early, without an error. */
  ghost predicate Unmet(c: Config, d: Name, i: Instr) {
    i.Condition? && !c.outcome([], d, Command(ExecCondition, i.line))
  }

  datatype Fate = Up | Skipped | Failed

  /** What becomes of d: the first instruction that fails or is not met decides. */
  ghost function FateOf(c: Config, w: World, d: Name, p: Program): (f: Fate) {
    if p == [] then Up
    else if Bad(c, w, d, p[0]) then Failed
    else if Unmet(c, d, p[0]) then Skipped
    else FateOf(c, w, d, p[1..])
  }

  lemma {:induction false} FateConcat(c: Config, w: World, d: Name, p: Program, q: Program)
    ensures FateOf(c, w, d, p + q) == if FateOf(c, w, d, p) == Up then FateOf(c, w, d, q) else FateOf(c, w, d, p)
  {
    if p == [] {
      assert p + q == q;
    } else {
      assert (p + q)[1..] == p[1..] + q;
      FateConcat(c, w, d, p[1..], q);
    }
  }

  lemma {:induction false} FateWhole(c: Config, w: World, d: Name, p: Program)
    ensures FateOf(c, w, d, p) == Up <==> forall i :: i in p ==> !Bad(c, w, d, i) && !Unmet(c, d, i)
    ensures FateOf(c, w, d, p) == Failed ==> exists i :: i in p && Bad(c, w, d, i)
    ensures FateOf(c, w, d, p) == Skipped ==> exists i :: i in p && Unmet(c, d, i)
  {
    if p != [] {
      FateWhole(c, w, d, p[1..]);
      assert forall i :: i in p <==> i == p[0] || i in p[1..];
    }
  }

  lemma RunExact(c: Config, w: World, d: Name, phase: Phase, line: string)
    requires Ready(c, w) && Calm(c) && Settled(w) && w.IsState(d, Stopped) && d !in w.masked
    ensures var s := RunCommand(c, w, d, phase, line);
            && (s.Continue? <==> !FatalLine(c, d, phase, line))
            && (s.Return? ==> !s.o.ok && s.o.w.units[d].failed)
            && SameStates(w, s.After())
  {
    hide Stop, Settled;
    var o := Perform(c, w, d, Command(phase, Bare(line)));
    assert o.ok == c.outcome([], d, Command(phase, Bare(line)));
    if !o.ok && Fatal(line) {
      StopOfStopped(c, o.w, d, true);
      SameStatesComposes(w, o.w, Stop(c, o.w, d, true).w);
    }
  }

  lemma {:induction false} StepExact(c: Config, w: World, d: Name, i: Instr)
    requires Ready(c, w) && Calm(c) && Settled(w) && w.IsState(d, Stopped) && d !in w.masked && Legal(c, d, [i])
    requires !i.Finish? && !i.Conflict?
    ensures var s := Step(c, w, d, i);
            && (s.Continue? <==> !Bad(c, w, d, i) && !Unmet(c, d, i))
            && (s.Return? ==> s.o.ok == Unmet(c, d, i))
            && (s.Return? && !i.Prepare? ==> s.o.w.units[d].failed == !i.Condition?)
            && Faithful(c, w, s.After()) && s.After().IsState(d, Stopped)
    decreases Rank(c.Edges(), d), 0, 0
  {
    if i.Depend? {
      assert Edge(c.Edges(), d, [i][0].dep);
      RankDecreases(c.Edges(), d, i.dep);
      StartRaises(c, w, i.dep, false);
      NotBehind(c, d, i.dep);
      StartExact(c, w, i.dep, false);
      DependFaithful(c, w, d, i.dep, i.hard);
    } else if i.Run? {
      RunExact(c, w, d, i.phase, i.line);
      SameStatesFaithful(c, w, RunCommand(c, w, d, i.phase, i.line).After());
    } else {
      assert forall h, act :: c.outcome(h, d, act) == c.outcome([], d, act);
      SameStatesFaithful(c, w, Step(c, w, d, i).After());
    }
  }

  lemma DependFaithful(c: Config, w: World, d: Name, r: Name, hard: bool)
    requires Ready(c, w) && Calm(c) && w.IsState(d, Stopped) && Legal(c, d, [Depend(r, hard)])
    requires Faithful(c, w, Start(c, w, r, false).w)
    requires !Start(c, w, r, false).w.IsState(d, Running)
    ensures Faithful(c, w, Step(c, w, d, Depend(r, hard)).After())
    ensures Step(c, w, d, Depend(r, hard)).After().IsState(d, Stopped)
  {
    FailFaithful(c, w, Start(c, w, r, false).w, d);
  }

  lemma FailFaithful(c: Config, w: World, w': World, d: Name)
    requires Faithful(c, w, w') && d in w.units && !w'.IsState(d, Running)
    ensures Faithful(c, w, w'.Fail(d))
  {
  }

  // ---- the rest of a program, and a whole start

  /** What running p from w comes to, when o is the outcome. */
  ghost predicate Concludes(c: Config, w: World, d: Name, p: Program, o: Outcome) {
    var fate := FateOf(c, w, d, p);
    && o.w.units.Keys == w.units.Keys && d in w.units
    && (o.ok <==> fate != Failed)
    && (fate == Up ==> o.w.IsState(d, Running) && Faithful(c, w, o.w.SetState(d, Stopped)))
    && (fate != Up ==> o.w.IsState(d, Stopped) && Faithful(c, w, o.w))
    && (fate != Failed ==> !o.w.units[d].failed)
    && (fate == Failed ==> o.w.units[d].failed || (Prepare in p && Bad(c, w, d, Prepare)))
  }

  lemma {:induction false} ExecExact(c: Config, w: World, d: Name, p: Program)
    requires Ready(c, w) && Calm(c) && Settled(w) && w.IsState(d, Stopped) && d !in w.masked
    requires Legal(c, d, p) && Plain(p)
    ensures Concludes(c, w, d, p, Exec(c, w, d, p))
    decreases Rank(c.Edges(), d), 0, |p|
  {
    hide Exec, Step, Tells, WillFail;
    if p[0].Finish? {
      FinishIsLast(p);
      FinishWrites(c, w, d, p);
      SameStatesFaithful(c, w, w.SetFailed(d, false));
    } else {
      StepExact(c, w, d, p[0]);
      var s := Step(c, w, d, p[0]);
      assert p == [p[0]] + p[1..];
      if s.Continue? {
        ExecContinues(c, w, d, p);
        ExecExact(c, s.w, d, p[1..]);
        ConcludesBack(c, w, s.w, d, p, Exec(c, s.w, d, p[1..]));
      } else {
        ExecReturns(c, w, d, p);
      }
    }
  }

  lemma FinishWrites(c: Config, w: World, d: Name, p: Program)
    requires c.Valid() && w.units.Keys == c.defs.Keys && w.IsState(d, Stopped) && p == [Finish] && Legal(c, d, p)
    ensures Exec(c, w, d, p).ok && Exec(c, w, d, p).w.SetState(d, Stopped) == w.SetFailed(d, false)
    ensures Exec(c, w, d, p).w.IsState(d, Running) && !Exec(c, w, d, p).w.units[d].failed
    ensures FateOf(c, w, d, p) == Up
  {
    var up := w.units[d].(state := Running, failed := false);
    assert Exec(c, w, d, p) == Outcome(w.Update(d, up), true);
    Overwrites(w, d, up, up.(state := Stopped));
  }

  lemma Overwrites(w: World, d: Name, u: Unit, v: Unit)
    requires d in w.units
    ensures w.Update(d, u).Update(d, v) == w.Update(d, v)
  {
    assert w.units[d := u][d := v] == w.units[d := v];
  }

  lemma ConcludesBack(c: Config, w: World, w': World, d: Name, p: Program, o: Outcome)
    requires p != [] && !Bad(c, w, d, p[0]) && !Unmet(c, d, p[0]) && d in w.units
    requires Faithful(c, w, w') && Concludes(c, w', d, p[1..], o)
    ensures Concludes(c, w, d, p, o)
  {
    assert forall i :: i in p <==> i == p[0] || i in p[1..];
    FateKept(c, w, w', d, p[1..]);
    FaithfulComposes(c, w, w', if FateOf(c, w, d, p) == Up then o.w.SetState(d, Stopped) else o.w);
  }

  lemma {:induction false} FateKept(c: Config, w: World, w': World, d: Name, p: Program)
    requires Progress(c, w, w')
    ensures FateOf(c, w', d, p) == FateOf(c, w, d, p)
  {
    if p != [] {
      if p[0].Depend? {
        Stable(c, w, w', p[0].dep);
      }
      FateKept(c, w, w', d, p[1..]);
    }
  }

  lemma CommandsVerdict(c: Config, w: World, d: Name)
    requires d in c.defs
    ensures FateOf(c, w, d, CommandPart(c.defs[d])) == if CommandsFail(c, d) then Failed else Up
  {
    var def := c.defs[d];
    RunsVerdict(c, w, d, ExecStartPre, def.startPre);
    RunsVerdict(c, w, d, ExecStart, def.start);
    RunsVerdict(c, w, d, ExecStartPost, def.startPost);
    var pre, main, post := Runs(ExecStartPre, def.startPre), Runs(ExecStart, def.start), Runs(ExecStartPost, def.startPost);
    FateConcat(c, w, d, pre, main + (post + [Finish]));
    FateConcat(c, w, d, main, post + [Finish]);
    FateConcat(c, w, d, post, [Finish]);
  }

  lemma RunsVerdict(c: Config, w: World, d: Name, phase: Phase, lines: seq<string>)
    ensures FateOf(c, w, d, Runs(phase, lines)) ==
            if exists line :: line in lines && FatalLine(c, d, phase, line) then Failed else Up
  {
    FateWhole(c, w, d, Runs(phase, lines));
    forall line | line in lines
      ensures Run(phase, line) in Runs(phase, lines)
    {
      var k :| 0 <= k < |lines| && lines[k] == line;
      assert Runs(phase, lines)[k] == Run(phase, line);
    }
    forall line | line in lines && FatalLine(c, d, phase, line)
      ensures Bad(c, w, d, Run(phase, line))
    {
    }
  }

  lemma DependsVerdict(c: Config, w: World, h: History, d: Name)
    requires c.Valid() && d in c.defs
    ensures FateOf(c, w, d, DependPart(c, h, d)) ==
            if exists r :: r in c.defs[d].Hard() && WillFail(c, w, r) then Failed else Up
  {
    hide WillFail;
    FateWhole(c, w, d, DependPart(c, h, d));
    DependPartShape(c, h, d);
    hide FateOf;
    forall r | r in c.defs[d].Hard() && WillFail(c, w, r)
      ensures Bad(c, w, d, Depend(r, true)) && Depend(r, true) in DependPart(c, h, d)
    {
    }
    forall i | i in DependPart(c, h, d) && Bad(c, w, d, i)
      ensures i.dep in c.defs[d].Hard() && WillFail(c, w, i.dep)
    {
      assert i.dep in c.order(h, d, Requires) || i.dep in c.order(h, d, BindsTo);
    }
  }

  lemma ConditionsVerdict(c: Config, w: World, d: Name)
    requires d in c.defs
    ensures FateOf(c, w, d, Conditions(c.defs[d].conditions)) == if CondsMet(c, d) then Up else Skipped
  {
    var lines := c.defs[d].conditions;
    FateWhole(c, w, d, Conditions(lines));
    forall line | line in lines
      ensures Condition(line) in Conditions(lines)
    {
      var k :| 0 <= k < |lines| && lines[k] == line;
      assert Conditions(lines)[k] == Condition(line);
    }
    forall line | line in lines && !c.outcome([], d, Command(ExecCondition, line))
      ensures Unmet(c, d, Condition(line))
    {
    }
  }

  lemma NothingToOrder(s: seq<Name>)
    requires IsOrder(s, {})
    ensures s == []
  {
  }

  lemma CalmProgram(c: Config, h: History, d: Name)
    requires c.Valid() && Calm(c) && d in c.defs
    ensures ProgramOf(c, h, d) ==
            [Prepare, AttachLog] + (Conditions(c.defs[d].conditions) + (DependPart(c, h, d) + CommandPart(c.defs[d])))
  {
    NothingToOrder(c.order(h, d, Conflicts));
    assert ConflictsWith([]) == [];
    assert ConflictsWith([]) + CommandPart(c.defs[d]) == CommandPart(c.defs[d]);
  }

  lemma ProgramPlain(c: Config, h: History, d: Name)
    requires c.Valid() && Calm(c) && d in c.defs
    ensures Plain(ProgramOf(c, h, d))
  {
    CalmProgram(c, h, d);
    DependPartShape(c, h, d);
    PlainCommands(c.defs[d]);
    var conditions := Conditions(c.defs[d].conditions);
    PlainConcat(DependPart(c, h, d), CommandPart(c.defs[d]));
    PlainConcat(conditions, DependPart(c, h, d) + CommandPart(c.defs[d]));
    PlainConcat([Prepare, AttachLog], conditions + (DependPart(c, h, d) + CommandPart(c.defs[d])));
  }

  lemma PlainCommands(def: Def)
    ensures Plain(CommandPart(def))
  {
    PlainConcat(Runs(ExecStartPost, def.startPost), [Finish]);
    PlainConcat(Runs(ExecStart, def.start), Runs(ExecStartPost, def.startPost) + [Finish]);
    PlainConcat(Runs(ExecStartPre, def.startPre),
                Runs(ExecStart, def.start) + (Runs(ExecStartPost, def.startPost) + [Finish]));
  }

  lemma PlainConcat(a: Program, b: Program)
    requires Plain(b) && forall i :: i in a ==> !i.Finish? && !i.Conflict?
    ensures Plain(a + b)
  {
    forall i | 0 <= i < |a + b| - 1
      ensures var x := (a + b)[i]; !x.Finish? && !x.Conflict?
    {
      if i < |a| {
        assert (a + b)[i] in a;
      }
    }
  }

  lemma ProgramVerdict(c: Config, w: World, h: History, d: Name)
    requires c.Valid() && Calm(c) && d in c.defs && d !in w.masked && !w.IsState(d, Running)
    ensures FateOf(c, w, d, ProgramOf(c, h, d)) ==
            if WillFail(c, w, d) then Failed else if CondsMet(c, d) then Up else Skipped
  {
    hide DependPart, CommandPart, CondsMet, CommandsFail, WillFail;
    WillFailUnfolds(c, w, d);
    CalmProgram(c, h, d);
    ConditionsVerdict(c, w, d);
    DependsVerdict(c, w, h, d);
    CommandsVerdict(c, w, d);
    var conditions, rest := Conditions(c.defs[d].conditions), DependPart(c, h, d) + CommandPart(c.defs[d]);
    FateConcat(c, w, d, DependPart(c, h, d), CommandPart(c.defs[d]));
    FateConcat(c, w, d, conditions, rest);
    PreambleVerdict(c, w, d, conditions + rest);
  }

  lemma PreambleVerdict(c: Config, w: World, d: Name, p: Program)
    ensures FateOf(c, w, d, [Prepare, AttachLog] + p) ==
            if c.outcome([], d, ResolveEnvironment) then FateOf(c, w, d, p) else Failed
  {
    FateConcat(c, w, d, [Prepare, AttachLog], p);
    assert [Prepare, AttachLog][1..] == [AttachLog];
  }

  lemma StartConcludes(c: Config, w: World, d: Name, o: Outcome)
    requires Settled(w) && d in w.units && o.w.units.Keys == w.units.Keys && !w.IsState(d, Running)
    requires o.ok <==> !WillFail(c, w, d)
    requires o.w.IsState(d, if o.ok && CondsMet(c, d) then Running else Stopped)
    requires Faithful(c, w, if o.ok && CondsMet(c, d) then o.w.SetState(d, Stopped) else o.w)
    ensures Faithful(c, w, o.w.Note(Returned(d, o.ok)))
  {
    var w1 := if o.ok && CondsMet(c, d) then o.w.SetState(d, Stopped) else o.w;
    var w2 := o.w.Note(Returned(d, o.ok));
    assert forall x :: x != d ==> (w2.IsState(x, Running) <==> w1.IsState(x, Running));
    assert w2.log == w1.log + [Returned(d, o.ok)];
  }

  lemma StartReturnsAtOnce(c: Config, w: World, d: Name, manual: bool)
    requires Ready(c, w) && Calm(c) && Settled(w)
    requires d !in w.units || d in w.masked || w.IsState(d, Running)
    ensures var o := Start(c, w, d, manual);
            && (o.ok <==> !(d in w.units && d in w.masked))
            && (o.ok <==> !WillFail(c, w, d))
            && Faithful(c, w, o.w)
            && (d in w.units && d !in w.masked ==> o.w.IsState(d, Running))
  {
    hide Exec, CleanUp, Begin, WillFail;
    WillFailUnfolds(c, w, d);
    if d in w.units {
      var w0 := w.Note(Enter(d));
      var o := StartLoaded(c, w0, d, manual);
      assert SameStates(w, o.w);
      SameStatesFaithful(c, w, o.w);
      var w2 := o.w.Note(Returned(d, o.ok));
      assert w2.log == w.log + [Enter(d)] + [Returned(d, o.ok)];
    } else {
      SameStatesFaithful(c, w, w);
    }
  }

  /** The states while d's program begins are those before the call. */
  lemma EntrySameStates(c: Config, w: World, d: Name, manual: bool)
    requires Ready(c, w) && Settled(w) && w.IsState(d, Stopped) && d !in w.masked
    ensures var s := CleanUp(c, Begin(c, w.Note(Enter(d)), d, manual), d);
            s.Continue? && SameStates(w, s.w)
  {
    hide CleanUp, Stop, RunStop;
    var w1 := Begin(c, w.Note(Enter(d)), d, manual);
    CleanUpFaithful(c, w1, d);
    var w2 := w1.SetState(d, Stopped);
    assert SameStates(w, w2);
    SameStatesComposes(w, w2, CleanUp(c, w1, d).w);
  }

  lemma {:induction false} BodyExact(c: Config, w: World, d: Name, manual: bool)
    requires Ready(c, w) && Calm(c) && Settled(w) && w.IsState(d, Stopped) && d !in w.masked
    ensures var o := Start(c, w, d, manual);
            && (o.ok <==> !WillFail(c, w, d))
            && Faithful(c, w, o.w)
            && o.w.IsState(d, if o.ok && CondsMet(c, d) then Running else Stopped)
            && (o.ok ==> !o.w.units[d].failed)
            && (!o.ok && c.outcome([], d, ResolveEnvironment) ==> o.w.units[d].failed)
    decreases Rank(c.Edges(), d), 0, |ProgramOf(c, w.log + [Enter(d)], d)| + 1
  {
    var h := w.log + [Enter(d)];
    var p := ProgramOf(c, h, d);
    StartUnfolds(c, w, d, manual);
    EntrySameStates(c, w, d, manual);
    var w2 := CleanUp(c, Begin(c, w.Note(Enter(d)), d, manual), d).w;
    SameStatesFaithful(c, w, w2);
    ProgramPlain(c, h, d);
    ExecExact(c, w2, d, p);
    FateKept(c, w, w2, d, p);
    ProgramVerdict(c, w, h, d);
    var o := Exec(c, w2, d, p);
    FaithfulComposes(c, w, w2, if o.ok && CondsMet(c, d) then o.w.SetState(d, Stopped) else o.w);
    StartConcludes(c, w, d, o);
  }

  /** Failure propagation is exact, for the call itself and for every start nested in it; Wants and Upholds
      never propagate. The unit ends Running, or Stopped if it failed or a condition did not hold; an error is
      recorded just when it failed, unless its environment was at fault. */
  lemma {:induction false} StartExact(c: Config, w: World, d: Name, manual: bool)
    requires Ready(c, w) && Calm(c) && Settled(w)
    ensures var o := Start(c, w, d, manual);
            && (o.ok <==> !WillFail(c, w, d))
            && Faithful(c, w, o.w)
            && (d in w.units && d !in w.masked ==>
                  o.w.IsState(d, if w.IsState(d, Running) || (o.ok && CondsMet(c, d)) then Running else Stopped))
            && (o.ok && w.IsState(d, Stopped) ==> !o.w.units[d].failed)
            && (!o.ok && d !in w.masked && c.outcome([], d, ResolveEnvironment) ==> o.w.units[d].failed)
    decreases Rank(c.Edges(), d), 1, 0
  {
    WillFailUnfolds(c, w, d);
    if d in w.units && d !in w.masked && w.IsState(d, Stopped) {
      BodyExact(c, w, d, manual);
    } else {
      StartReturnsAtOnce(c, w, d, manual);
    }
  }

  /** A unit aborted by a failed Requires or BindsTo dependency launches none of its start commands. */
  lemma AbortedLaunchesNothing(c: Config, w: World, d: Name, manual: bool, r: Name, i: nat)
    requires Ready(c, w) && Calm(c) && Settled(w)
    requires d in c.defs && r in c.defs && r in c.defs[d].Names(Requires) + c.defs[d].Names(BindsTo) && WillFail(c, w, r)
    requires |w.log| <= i < |Start(c, w, d, manual).w.log|
    ensures var e := Start(c, w, d, manual).w.log[i]; !(Launch(c, e) && e.d == d)
  {
    var log := Start(c, w, d, manual).w.log;
    StartOrdered(c, w, d, manual);
    StartExact(c, w, d, manual);
    assert LaunchOk(c, log, |w.log|, i);
    assert Launch(c, log[i]) && log[i].d == d ==> Seen(log, |w.log|, i, r);
  }
}
