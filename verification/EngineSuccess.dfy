/** When every command succeeds, one start brings up exactly what is reached through units not yet running, and
    each of those runs its whole block of start commands exactly once. */
module EngineSuccess {
  import opened Graph
  import opened Engine
  import opened EngineActs
  import opened EngineSettled
  import opened EngineOrder
  import opened EngineFailure

  ghost predicate Passable(w: World, d: Name) {
    !w.IsState(d, Running) && d !in w.masked
  }

  /** x is reached from d along start edges through units that are neither running nor masked. */
  ghost predicate ReachedBy(c: Config, w: World, d: Name, x: Name, p: seq<Name>) {
    && PathFromTo(c.Edges(), p, d, x)
    && forall i :: 0 <= i < |p| - 1 ==> Passable(w, p[i])
  }

  ghost predicate Reached(c: Config, w: World, d: Name, x: Name) {
    exists p :: ReachedBy(c, w, d, x, p)
  }

  /** Nothing is in the way of y: every answer about it is yes, it has no conflicts, and none of its Requires and
      BindsTo dependencies is masked. */
  ghost predicate Unhindered(c: Config, w: World, y: Name)
    requires y in c.defs
  {
    && (forall h, act :: c.outcome(h, y, act))
    && c.defs[y].Names(Conflicts) == {} && c.defs[y].Hard() !! w.masked
  }

  /** Nothing is in the way of any unit that a start of d would have to bring up. */
  ghost predicate AllSucceed(c: Config, w: World, d: Name) {
    forall y :: y in c.defs && Passable(w, y) && Reached(c, w, d, y) ==> Unhindered(c, w, y)
  }

  lemma SucceedsItself(c: Config, w: World, d: Name)
    requires AllSucceed(c, w, d) && d in c.defs && Passable(w, d)
    ensures Unhindered(c, w, d)
  {
    ReachedUnfolds(c, w, d, d);
  }

  lemma SucceedsBelow(c: Config, w: World, d: Name, r: Name)
    requires AllSucceed(c, w, d) && d in c.defs && Passable(w, d) && r in c.defs[d].StartEdges()
    ensures AllSucceed(c, w, r)
  {
    forall y | y in c.defs && Passable(w, y) && Reached(c, w, r, y)
      ensures Unhindered(c, w, y)
    {
      ReachedUnfolds(c, w, d, y);
    }
  }

  lemma ReachedUnfolds(c: Config, w: World, d: Name, x: Name)
    ensures Reached(c, w, d, x) <==>
            x == d ||
            (d in c.defs && Passable(w, d) &&
             var def := c.defs[d];
             exists r :: r in def.Names(Requires) + def.Names(BindsTo) + def.Names(Wants) + def.Names(Upholds) &&
               Reached(c, w, r, x))
  {
    if Reached(c, w, d, x) {
      var p :| ReachedBy(c, w, d, x, p);
      if |p| > 1 {
        assert Edge(c.Edges(), p[0], p[1]) && Passable(w, p[0]);
        assert ReachedBy(c, w, p[1], x, p[1..]);
      }
    }
    if x == d {
      assert ReachedBy(c, w, d, x, [d]);
    }
    if d in c.defs && Passable(w, d) && exists r :: r in c.defs[d].StartEdges() && Reached(c, w, r, x) {
      var r :| r in c.defs[d].StartEdges() && Reached(c, w, r, x);
      var p :| ReachedBy(c, w, r, x, p);
      PrependReached(c, w, d, r, x, p);
    }
  }

  lemma PrependReached(c: Config, w: World, d: Name, r: Name, x: Name, p: seq<Name>)
    requires d in c.defs && Passable(w, d) && r in c.defs[d].StartEdges() && ReachedBy(c, w, r, x, p)
    ensures ReachedBy(c, w, d, x, [d] + p)
  {
    var q := [d] + p;
    forall i, j | 0 <= i < |q| - 1 && j == i + 1
      ensures Edge(c.Edges(), q[i], q[j])
    {
      if i > 0 {
        assert Edge(c.Edges(), p[i - 1], p[j - 1]);
      }
    }
  }

  // ---- the start commands a stretch of history runs

  /** A command of a start: a condition or a line of one of the three lists. */
  predicate OfStart(act: Act) {
    act.Command? && act.phase in {ExecCondition, ExecStartPre, ExecStart, ExecStartPost}
  }

  function RanBy(e: Event, x: Name): seq<Act> {
    if e.Did? && e.d == x && OfStart(e.act) then [e.act] else []
  }

  function Ran(log: History, x: Name): seq<Act> {
    if log == [] then [] else RanBy(log[0], x) + Ran(log[1..], x)
  }

  lemma {:induction false} RanConcat(a: History, b: History, x: Name)
    ensures Ran(a + b, x) == Ran(a, x) + Ran(b, x)
  {
    if a == [] {
      assert a + b == b;
    } else {
      RanConcat(a[1..], b, x);
      assert (a + b)[1..] == a[1..] + b && (a + b)[0] == a[0];
      AppendTwice(RanBy(a[0], x), Ran(a[1..], x), Ran(b, x));
    }
  }

  lemma AppendTwice(a: seq<Act>, b: seq<Act>, c: seq<Act>)
    ensures a + (b + c) == (a + b) + c
  {
  }

  /** The start commands of x run between w and w'. */
  function RanSince(w: World, w': World, x: Name): seq<Act>
    requires w.log <= w'.log
  {
    Ran(w'.log[|w.log|..], x)
  }

  lemma RanSinceComposes(w0: World, w1: World, w2: World, x: Name)
    requires w0.log <= w1.log && w1.log <= w2.log
    ensures RanSince(w0, w2, x) == RanSince(w0, w1, x) + RanSince(w1, w2, x)
  {
    assert w2.log[|w0.log|..] == w1.log[|w0.log|..] + w2.log[|w1.log|..];
    RanConcat(w1.log[|w0.log|..], w2.log[|w1.log|..], x);
  }

  lemma RanOne(w: World, w': World, e: Event, x: Name)
    requires w'.log == w.log + [e]
    ensures RanSince(w, w', x) == Ran([e], x)
  {
    assert w'.log[|w.log|..] == [e];
  }

  /** A leading dash is no part of the command. */
  function WithoutDashes(lines: seq<string>): seq<string> {
    seq(|lines|, i requires 0 <= i < |lines| =>
      if lines[i] != "" && lines[i][0] == '-' then lines[i][1..] else lines[i])
  }

  /** What a unit runs to come up: its conditions, then ExecStartPre, ExecStart and ExecStartPost, each line once. */
  function Block(def: Def): seq<Act> {
    Commands(ExecCondition, def.conditions) + (Commands(ExecStartPre, WithoutDashes(def.startPre)) +
    (Commands(ExecStart, WithoutDashes(def.start)) + Commands(ExecStartPost, WithoutDashes(def.startPost))))
  }

  function LaunchOf(i: Instr): seq<Act> {
    match i
    case Condition(line) => [Command(ExecCondition, line)]
    case Run(phase, line) => if OfStart(Command(phase, line)) then [Command(phase, Bare(line))] else []
    case _ => []
  }

  function Launches(p: Program): seq<Act> {
    if p == [] then [] else LaunchOf(p[0]) + Launches(p[1..])
  }

  // ---- stop commands are no start commands

  lemma {:induction false} StopLinesRanNothing(c: Config, w: World, d: Name, phase: Phase, lines: seq<string>, x: Name)
    requires d in w.units && phase in {ExecStopPre, ExecStop, ExecStopPost}
    ensures RanSince(w, RunStopLines(c, w, d, phase, lines), x) == []
    decreases |lines|
  {
    if lines != [] {
      var o := Perform(c, w, d, Command(phase, lines[0]));
      var w1 := if o.ok then o.w else o.w.SetFailed(d, true);
      RanOne(w, w1, Did(d, Command(phase, lines[0]), w.RunningUnits()), x);
      StopLinesRanNothing(c, w1, d, phase, lines[1..], x);
      RanSinceComposes(w, w1, RunStopLines(c, w1, d, phase, lines[1..]), x);
    }
  }

  lemma RunStopRanNothing(c: Config, w: World, d: Name, x: Name)
    requires w.units.Keys == c.defs.Keys && d in w.units
    ensures RanSince(w, RunStop(c, w, d), x) == []
  {
    var w1 := RunStopLines(c, w, d, ExecStopPre, c.defs[d].stopPre);
    StopLinesRanNothing(c, w, d, ExecStopPre, c.defs[d].stopPre, x);
    var w2 := RunStopLines(c, w1, d, ExecStop, c.defs[d].stop);
    StopLinesRanNothing(c, w1, d, ExecStop, c.defs[d].stop, x);
    RanSinceComposes(w, w1, w2, x);
    var w3 := RunStopLines(c, w2, d, ExecStopPost, c.defs[d].stopPost);
    StopLinesRanNothing(c, w2, d, ExecStopPost, c.defs[d].stopPost, x);
    RanSinceComposes(w, w2, w3, x);
    RanOne(w3, Perform(c, w3, d, AwaitExit).w, Did(d, AwaitExit, w3.RunningUnits()), x);
    RanSinceComposes(w, w3, RunStop(c, w, d), x);
  }

  // ---- growth

  ghost predicate Came(w: World, w': World, x: Name) {
    w'.IsState(x, Running) && !w.IsState(x, Running)
  }

  /** Since w0, running units stayed up, and with each unit that came up everything reached from it did. */
  ghost predicate Grown(c: Config, w0: World, w: World) {
    && Extends(w0, w) && Settled(w)
    && (forall x :: w0.IsState(x, Running) ==> w.IsState(x, Running))
    && forall y, x :: Came(w0, w, y) && Reached(c, w0, y, x) && x in w.units && x !in w.masked ==> w.IsState(x, Running)
  }

  /** Between w and w', a unit other than d ran its whole block once if it came up, and not at all otherwise. */
  ghost predicate OnceEach(c: Config, w: World, w': World, d: Name) {
    && w.log <= w'.log
    && forall x :: x in c.defs && x != d ==>
         RanSince(w, w', x) == if Came(w, w', x) then Block(c.defs[x]) else []
  }

  ghost predicate Kept(w: World, w': World) {
    Extends(w, w') && forall x :: w.IsState(x, Running) ==> w'.IsState(x, Running)
  }

  lemma OnceComposes(c: Config, w0: World, w1: World, w2: World, d: Name)
    requires Kept(w0, w1) && Kept(w1, w2)
    requires OnceEach(c, w0, w1, d) && OnceEach(c, w1, w2, d)
    ensures OnceEach(c, w0, w2, d)
  {
    hide Ran;
    forall x | x in c.defs && x != d
      ensures RanSince(w0, w2, x) == if Came(w0, w2, x) then Block(c.defs[x]) else []
    {
      RanSinceComposes(w0, w1, w2, x);
    }
  }

  /** States and returns aside, nothing happened but events that are no start commands. */
  ghost predicate Idle(w: World, w': World) {
    && Extends(w, w')
    && (forall x :: x in w.units ==> w'.units[x].state == w.units[x].state)
    && forall x :: RanSince(w, w', x) == []
  }

  lemma IdleComposes(w0: World, w1: World, w2: World)
    requires Idle(w0, w1) && Idle(w1, w2)
    ensures Idle(w0, w2)
  {
    hide Ran;
    forall x
      ensures RanSince(w0, w2, x) == []
    {
      RanSinceComposes(w0, w1, w2, x);
    }
  }

  lemma IdleSilent(w: World, w': World)
    requires w'.log == w.log && Extends(w, w')
    requires forall x :: x in w.units ==> w'.units[x].state == w.units[x].state
    ensures Idle(w, w')
  {
    assert w'.log[|w.log|..] == [];
  }

  lemma IdleNote(w: World, w': World, e: Event)
    requires w'.log == w.log + [e] && Extends(w, w')
    requires forall x :: x in w.units ==> w'.units[x].state == w.units[x].state
    requires e.Did? ==> !OfStart(e.act)
    ensures Idle(w, w')
  {
    forall x
      ensures RanSince(w, w', x) == []
    {
      RanOne(w, w', e, x);
    }
  }

  /** The history of an entry is a note and a stop. */
  lemma EntryLogs(w: World, w2: World, w4: World, w': World, d: Name, x: Name)
    requires w2.log == w.log + [Enter(d)] && w2.log <= w4.log == w'.log && RanSince(w2, w4, x) == []
    ensures RanSince(w, w', x) == []
  {
    RanOne(w, w2, Enter(d), x);
    RanSinceComposes(w, w2, w4, x);
  }

  lemma EntryRanNothing(c: Config, w: World, d: Name, manual: bool, x: Name)
    requires Ready(c, w) && w.IsState(d, Stopped) && d !in w.masked
    ensures RanSince(w, CleanUp(c, Begin(c, w.Note(Enter(d)), d, manual), d).After(), x) == []
  {
    hide Ran, Stop, RunStop;
    var w1 := Begin(c, w.Note(Enter(d)), d, manual);
    CleanUpUnfolds(c, w1, d);
    var w2 := w1.SetState(d, Stopping);
    StoppingRanNothing(c, w2, d, x);
    EntryLogs(w, w2, RunStop(c, Perform(c, w2, d, OpenLog).w, d), CleanUp(c, w1, d).w, d, x);
  }

  lemma EntryIdle(c: Config, w: World, d: Name, manual: bool)
    requires Ready(c, w) && Settled(w) && w.IsState(d, Stopped) && d !in w.masked
    ensures var s := CleanUp(c, Begin(c, w.Note(Enter(d)), d, manual), d);
            s.Continue? && Idle(w, s.w)
  {
    hide CleanUp, Begin, Ran;
    EntrySameStates(c, w, d, manual);
    forall x
      ensures RanSince(w, CleanUp(c, Begin(c, w.Note(Enter(d)), d, manual), d).After(), x) == []
    {
      EntryRanNothing(c, w, d, manual, x);
    }
  }

  lemma StoppingRanNothing(c: Config, w: World, d: Name, x: Name)
    requires w.units.Keys == c.defs.Keys && d in w.units
    ensures RanSince(w, RunStop(c, Perform(c, w, d, OpenLog).w, d), x) == []
  {
    var w1 := Perform(c, w, d, OpenLog).w;
    RanOne(w, w1, Did(d, OpenLog, w.RunningUnits()), x);
    RunStopRanNothing(c, w1, d, x);
    RanSinceComposes(w, w1, RunStop(c, w1, d), x);
  }

  lemma IdleGrown(c: Config, w0: World, w: World, w': World)
    requires Grown(c, w0, w) && Idle(w, w')
    ensures Grown(c, w0, w') && Kept(w, w') && forall d :: OnceEach(c, w, w', d)
  {
    ExtendsTransitive(w0, w, w');
    assert forall x :: w'.IsState(x, Running) <==> w.IsState(x, Running);
  }

  // ---- one instruction

  /** Depends of p that are loaded and unmasked. */
  ghost predicate Started(w: World, p: Program) {
    forall i :: i in p && i.Depend? && i.dep in w.units && i.dep !in w.masked ==> w.IsState(i.dep, Running)
  }

  /** Whatever came up was reached from one of p's dependencies. */
  ghost predicate CameFrom(c: Config, w0: World, w: World, w': World, p: Program) {
    forall x :: Came(w, w', x) ==> exists i :: i in p && i.Depend? && Reached(c, w0, i.dep, x)
  }

  ghost predicate Going(c: Config, w0: World, w: World, d: Name) {
    && Ready(c, w) && Grown(c, w0, w)
    && w.IsState(d, Stopped) && Passable(w0, d) && d in c.defs && AllSucceed(c, w0, d)
  }

  /** What a start of d comes to. */
  ghost predicate Upped(c: Config, w0: World, w: World, d: Name, o: Outcome) {
    && (o.ok <==> !(d in w.units && d in w.masked))
    && Grown(c, w0, o.w) && Kept(w, o.w)
    && (d in w.units && d !in w.masked ==> o.w.IsState(d, Running))
    && (forall x :: Came(w, o.w, x) ==> Reached(c, w0, d, x))
    && forall z :: OnceEach(c, w, o.w, z)
  }

  /** What an instruction of d comes to. */
  ghost predicate Stepped(c: Config, w0: World, w: World, w': World, d: Name, i: Instr) {
    && Going(c, w0, w', d) && Kept(w, w')
    && Started(w', [i]) && CameFrom(c, w0, w, w', [i])
    && OnceEach(c, w, w', d) && RanSince(w, w', d) == Launches([i])
  }

  lemma {:induction false} StepAll(c: Config, w0: World, w: World, d: Name, i: Instr)
    requires Going(c, w0, w, d) && Legal(c, d, [i]) && !i.Finish? && !i.Conflict?
    requires i.Depend? && i.hard ==> i.dep !in w.masked
    ensures var s := Step(c, w, d, i); s.Continue? && Stepped(c, w0, w, s.w, d, i)
    decreases Rank(c.Edges(), d), 0, 0
  {
    if i.Depend? {
      assert Edge(c.Edges(), d, [i][0].dep);
      RankDecreases(c.Edges(), d, i.dep);
      StartRaises(c, w, i.dep, false);
      NotBehind(c, d, i.dep);
      SucceedsBelow(c, w0, d, i.dep);
      StartAll(c, w0, w, i.dep, false);
      DependAll(c, w0, w, d, i, Start(c, w, i.dep, false));
    } else {
      RunStepAll(c, w0, w, d, i);
    }
  }

  lemma DependAll(c: Config, w0: World, w: World, d: Name, i: Instr, o: Outcome)
    requires Going(c, w0, w, d) && i.Depend? && Upped(c, w0, w, i.dep, o) && !o.w.IsState(d, Running)
    requires d in c.defs
    ensures Stepped(c, w0, w, o.w, d, i)
  {
    NothingRan(c, w, o.w, d);
    assert Launches([i]) == Launches([]);
    CameFromOne(c, w0, w, o.w, i);
  }

  lemma NothingRan(c: Config, w: World, w': World, d: Name)
    requires d in c.defs && !w'.IsState(d, Running) && forall z :: OnceEach(c, w, w', z)
    ensures OnceEach(c, w, w', d) && RanSince(w, w', d) == []
  {
    assert OnceEach(c, w, w', d + "x");
  }

  lemma CameFromOne(c: Config, w0: World, w: World, w': World, i: Instr)
    requires i.Depend? && forall x :: Came(w, w', x) ==> Reached(c, w0, i.dep, x)
    ensures CameFrom(c, w0, w, w', [i])
  {
    assert i in [i];
  }

  lemma RunStepAll(c: Config, w0: World, w: World, d: Name, i: Instr)
    requires Going(c, w0, w, d) && Legal(c, d, [i]) && !i.Finish? && !i.Conflict? && !i.Depend?
    ensures var s := Step(c, w, d, i); s.Continue? && Stepped(c, w0, w, s.w, d, i)
  {
    var act := match i
      case Prepare => ResolveEnvironment
      case AttachLog => OpenLog
      case Condition(line) => Command(ExecCondition, line)
      case Run(phase, line) => Command(phase, Bare(line))
      case _ => AwaitExit;
    var s := Step(c, w, d, i);
    SucceedsItself(c, w0, d);
    assert s == Continue(Perform(c, w, d, act).w);
    forall x
      ensures RanSince(w, s.w, x) == if x == d then Launches([i]) else []
    {
      RanOne(w, s.w, Did(d, act, w.RunningUnits()), x);
    }
    SameUnitsGrown(c, w0, w, s.w);
  }

  lemma SameUnitsGrown(c: Config, w0: World, w: World, w': World)
    requires Grown(c, w0, w) && Extends(w, w') && w'.units == w.units
    ensures Grown(c, w0, w') && Kept(w, w')
  {
    ExtendsTransitive(w0, w, w');
  }

  // ---- the rest of a program, and a whole start

  ghost predicate Smooth(w: World, p: Program) {
    && Plain(p)
    && forall i :: i in p && i.Depend? && i.hard ==> i.dep !in w.masked
  }

  /** Running p from w brings up d, and everything but d is as Grown, Started, CameFrom and OnceEach say. */
  ghost predicate Brings(c: Config, w0: World, w: World, d: Name, p: Program, o: Outcome) {
    && o.ok && o.w.units.Keys == w.units.Keys && o.w.IsState(d, Running) && Extends(w, o.w)
    && var w' := o.w.SetState(d, Stopped);
    && Grown(c, w0, w') && Kept(w, w')
    && Started(w', p) && CameFrom(c, w0, w, w', p)
    && OnceEach(c, w, o.w, d) && RanSince(w, o.w, d) == Launches(p)
  }

  lemma {:induction false} ExecAll(c: Config, w0: World, w: World, d: Name, p: Program)
    requires Going(c, w0, w, d) && Legal(c, d, p) && Smooth(w, p)
    requires d !in Dependees(p)
    ensures Brings(c, w0, w, d, p, Exec(c, w, d, p))
    decreases Rank(c.Edges(), d), 0, |p|
  {
    if p[0].Finish? {
      FinishAll(c, w0, w, d, p);
    } else {
      StepAll(c, w0, w, d, p[0]);
      ExecContinues(c, w, d, p);
      var w1 := Step(c, w, d, p[0]).w;
      SmoothTail(w, w1, d, p);
      ExecAll(c, w0, w1, d, p[1..]);
      BringsBack(c, w0, w, w1, d, p, Exec(c, w1, d, p[1..]));
    }
  }

  function Dependees(p: Program): set<Name> {
    set i | i in p && i.Depend? :: i.dep
  }

  lemma SmoothTail(w: World, w1: World, d: Name, p: Program)
    requires Smooth(w, p) && !p[0].Finish? && d !in Dependees(p) && w1.masked == w.masked
    ensures Smooth(w1, p[1..]) && d !in Dependees(p[1..])
  {
    assert p == [p[0]] + p[1..];
    DependeesConcat([p[0]], p[1..]);
  }

  lemma FinishAll(c: Config, w0: World, w: World, d: Name, p: Program)
    requires Going(c, w0, w, d) && Legal(c, d, p) && Smooth(w, p) && p[0].Finish?
    ensures Brings(c, w0, w, d, p, Exec(c, w, d, p))
  {
    FinishIsLast(p);
    var o := Exec(c, w, d, p);
    var w' := o.w.SetState(d, Stopped);
    SameStatesGrown(c, w0, w, w', p);
    NothingLogged(c, w, o.w, d);
  }

  lemma NothingLogged(c: Config, w: World, w': World, d: Name)
    requires w'.log == w.log && forall x :: x != d ==> !Came(w, w', x)
    ensures OnceEach(c, w, w', d) && RanSince(w, w', d) == []
  {
    assert w'.log[|w.log|..] == [];
  }

  lemma SameStatesGrown(c: Config, w0: World, w: World, w': World, p: Program)
    requires Grown(c, w0, w) && Extends(w, w') && forall i :: i in p ==> !i.Depend?
    requires forall x :: x in w.units ==> w'.units[x].state == w.units[x].state
    ensures Grown(c, w0, w') && Kept(w, w') && Started(w', p) && CameFrom(c, w0, w, w', p)
  {
    assert forall x :: w'.IsState(x, Running) <==> w.IsState(x, Running);
    ExtendsTransitive(w0, w, w');
  }

  lemma BringsBack(c: Config, w0: World, w: World, w1: World, d: Name, p: Program, o: Outcome)
    requires p != [] && !p[0].Finish? && d !in Dependees(p)
    requires w.IsState(d, Stopped) && Stepped(c, w0, w, w1, d, p[0])
    requires Brings(c, w0, w1, d, p[1..], o)
    ensures Brings(c, w0, w, d, p, o)
  {
    ExtendsTransitive(w, w1, o.w);
    CameBack(c, w0, w, w1, o.w.SetState(d, Stopped), p);
    RanBack(c, w, w1, d, p, o.w);
  }

  lemma CameBack(c: Config, w0: World, w: World, w1: World, w': World, p: Program)
    requires p != [] && Kept(w, w1) && Kept(w1, w') && Extends(w1, w')
    requires Started(w1, [p[0]]) && CameFrom(c, w0, w, w1, [p[0]])
    requires Started(w', p[1..]) && CameFrom(c, w0, w1, w', p[1..])
    ensures Kept(w, w') && Started(w', p) && CameFrom(c, w0, w, w', p)
  {
    ExtendsTransitive(w, w1, w');
    assert p == [p[0]] + p[1..];
    assert forall i :: i in p <==> i in [p[0]] || i in p[1..];
    forall x | Came(w, w', x)
      ensures exists i :: i in p && i.Depend? && Reached(c, w0, i.dep, x)
    {
      if Came(w, w1, x) {
        var i :| i in [p[0]] && i.Depend? && Reached(c, w0, i.dep, x);
        assert i in p;
      } else {
        assert Came(w1, w', x);
        var i :| i in p[1..] && i.Depend? && Reached(c, w0, i.dep, x);
        assert i in p;
      }
    }
  }

  lemma RanBack(c: Config, w: World, w1: World, d: Name, p: Program, w2: World)
    requires p != [] && d in w2.units && Kept(w, w1) && Kept(w1, w2.SetState(d, Stopped)) && w1.log <= w2.log
    requires OnceEach(c, w, w1, d) && RanSince(w, w1, d) == Launches([p[0]])
    requires OnceEach(c, w1, w2, d) && RanSince(w1, w2, d) == Launches(p[1..])
    ensures OnceEach(c, w, w2, d) && RanSince(w, w2, d) == Launches(p)
  {
    hide Ran;
    var w' := w2.SetState(d, Stopped);
    RanSinceComposes(w, w1, w2, d);
    LaunchesFirst(p);
    SameButOne(c, w1, w2, w', d);
    OnceComposes(c, w, w1, w', d);
    SameButOne(c, w, w', w2, d);
  }

  lemma LaunchesFirst(p: Program)
    requires p != []
    ensures Launches(p) == Launches([p[0]]) + Launches(p[1..])
  {
    assert [p[0]][1..] == [];
  }

  lemma SameButOne(c: Config, w: World, w1: World, w2: World, d: Name)
    requires w1.log == w2.log && OnceEach(c, w, w1, d)
    requires forall x :: x != d ==> w1.IsState(x, Running) == w2.IsState(x, Running)
    ensures OnceEach(c, w, w2, d)
  {
    hide Ran;
    assert forall x :: x != d ==> (Came(w, w1, x) <==> Came(w, w2, x));
  }

  // ---- the program of a unit

  lemma {:induction false} LaunchesConcat(a: Program, b: Program)
    ensures Launches(a + b) == Launches(a) + Launches(b)
  {
    if a == [] {
      assert a + b == b;
    } else {
      LaunchesConcat(a[1..], b);
      assert (a + b)[1..] == a[1..] + b && (a + b)[0] == a[0];
      AppendTwice(LaunchOf(a[0]), Launches(a[1..]), Launches(b));
    }
  }

  lemma {:induction false} LaunchesOfRuns(phase: Phase, lines: seq<string>)
    requires phase in {ExecStartPre, ExecStart, ExecStartPost}
    ensures Launches(Runs(phase, lines)) == Commands(phase, WithoutDashes(lines))
  {
    if lines != [] {
      assert Runs(phase, lines)[1..] == Runs(phase, lines[1..]);
      LaunchesOfRuns(phase, lines[1..]);
      var all := Commands(phase, WithoutDashes(lines));
      assert all == [all[0]] + Commands(phase, WithoutDashes(lines[1..]));
    }
  }

  lemma {:induction false} LaunchesOfConditions(lines: seq<string>)
    ensures Launches(Conditions(lines)) == Commands(ExecCondition, lines)
  {
    if lines != [] {
      assert Conditions(lines)[1..] == Conditions(lines[1..]);
      LaunchesOfConditions(lines[1..]);
      assert Commands(ExecCondition, lines) == [Command(ExecCondition, lines[0])] + Commands(ExecCondition, lines[1..]);
    }
  }

  lemma {:induction false} NoLaunches(p: Program)
    requires forall i :: i in p ==> !i.Run? && !i.Condition?
    ensures Launches(p) == []
  {
    if p != [] {
      assert p[0] in p;
      NoLaunches(p[1..]);
    }
  }

  lemma NoneInFront(p: Program, q: Program)
    requires Launches(p) == []
    ensures Launches(p + q) == Launches(q)
  {
    LaunchesConcat(p, q);
  }

  /** A program runs exactly the block of its unit. */
  lemma LaunchesOfProgram(c: Config, h: History, d: Name)
    requires c.Valid() && d in c.defs
    ensures Launches(ProgramOf(c, h, d)) == Block(c.defs[d])
  {
    hide DependPart, CommandPart, Conditions, ConflictsWith, Launches;
    var def := c.defs[d];
    DependPartShape(c, h, d);
    ConflictPartShape(c, h, d);
    var conflicts := ConflictsWith(c.order(h, d, Conflicts));
    var rest := DependPart(c, h, d) + (conflicts + CommandPart(def));
    NoLaunches([Prepare, AttachLog]);
    NoLaunches(DependPart(c, h, d));
    NoLaunches(conflicts);
    NoneInFront([Prepare, AttachLog], Conditions(def.conditions) + rest);
    NoneInFront(DependPart(c, h, d), conflicts + CommandPart(def));
    NoneInFront(conflicts, CommandPart(def));
    LaunchesConcat(Conditions(def.conditions), rest);
    LaunchesOfConditions(def.conditions);
    LaunchesOfCommands(def);
  }

  lemma LaunchesOfCommands(def: Def)
    ensures Launches(CommandPart(def)) ==
            Commands(ExecStartPre, WithoutDashes(def.startPre)) +
            (Commands(ExecStart, WithoutDashes(def.start)) + Commands(ExecStartPost, WithoutDashes(def.startPost)))
  {
    hide WithoutDashes, Commands, Runs;
    var post := Runs(ExecStartPost, def.startPost);
    LaunchesConcat(post, [Finish]);
    LaunchesOfRuns(ExecStartPost, def.startPost);
    LaunchesConcat(Runs(ExecStart, def.start), post + [Finish]);
    LaunchesOfRuns(ExecStart, def.start);
    LaunchesConcat(Runs(ExecStartPre, def.startPre), Runs(ExecStart, def.start) + (post + [Finish]));
    LaunchesOfRuns(ExecStartPre, def.startPre);
  }

  lemma DependPartNames(c: Config, h: History, d: Name)
    requires c.Valid() && d in c.defs
    ensures Dependees(DependPart(c, h, d)) == c.defs[d].StartEdges()
    ensures forall i :: i in DependPart(c, h, d) && i.Depend? && i.hard ==> i.dep in c.defs[d].Hard()
  {
    var needs := Depends(c.order(h, d, Requires), true);
    var binds := Depends(c.order(h, d, BindsTo), true);
    var soft := Depends(c.order(h, d, Wants), false) + Depends(c.order(h, d, Upholds), false);
    DependsNames(c.order(h, d, Requires), true, c.defs[d].Names(Requires));
    DependsNames(c.order(h, d, BindsTo), true, c.defs[d].Names(BindsTo));
    SoftNames(c, h, d);
    DependeesConcat(binds, soft);
    DependeesConcat(needs, binds + soft);
    assert forall i :: i in DependPart(c, h, d) ==> i in needs || i in binds || i in soft;
  }

  lemma SoftNames(c: Config, h: History, d: Name)
    requires c.Valid() && d in c.defs
    ensures var soft := Depends(c.order(h, d, Wants), false) + Depends(c.order(h, d, Upholds), false);
            && Dependees(soft) == c.defs[d].Names(Wants) + c.defs[d].Names(Upholds)
            && forall i :: i in soft ==> i.Depend? && !i.hard
  {
    DependsNames(c.order(h, d, Wants), false, c.defs[d].Names(Wants));
    DependsNames(c.order(h, d, Upholds), false, c.defs[d].Names(Upholds));
    DependeesConcat(Depends(c.order(h, d, Wants), false), Depends(c.order(h, d, Upholds), false));
  }

  lemma DependsNames(s: seq<Name>, hard: bool, names: set<Name>)
    requires IsOrder(s, names)
    ensures Dependees(Depends(s, hard)) == names
    ensures forall i :: i in Depends(s, hard) ==> i.Depend? && i.hard == hard && i.dep in names
  {
    forall r | r in names
      ensures r in Dependees(Depends(s, hard))
    {
      var k :| 0 <= k < |s| && s[k] == r;
      assert Depends(s, hard)[k] == Depend(r, hard);
      assert Depend(r, hard) in Depends(s, hard);
    }
  }

  lemma DependeesConcat(a: Program, b: Program)
    ensures Dependees(a + b) == Dependees(a) + Dependees(b)
  {
    assert forall i :: i in a + b <==> i in a || i in b;
  }

  lemma NoDependees(p: Program)
    requires forall i :: i in p ==> !i.Depend?
    ensures Dependees(p) == {}
  {
  }

  /** Program entries are exactly the start edges. */
  lemma DependeesOfProgram(c: Config, h: History, d: Name)
    requires c.Valid() && d in c.defs
    ensures Dependees(ProgramOf(c, h, d)) == c.defs[d].StartEdges()
  {
    var conflicts := ConflictsWith(c.order(h, d, Conflicts));
    var commands := CommandPart(c.defs[d]);
    var conditions := Conditions(c.defs[d].conditions);
    DependPartNames(c, h, d);
    NoDependees(conflicts);
    NoDependees(commands);
    NoDependees(conditions);
    NoDependees([Prepare, AttachLog]);
    DependeesConcat(conflicts, commands);
    DependeesConcat(DependPart(c, h, d), conflicts + commands);
    DependeesConcat(conditions, DependPart(c, h, d) + (conflicts + commands));
    DependeesConcat([Prepare, AttachLog], conditions + (DependPart(c, h, d) + (conflicts + commands)));
  }

  ghost predicate HardWithin(p: Program, names: set<Name>) {
    forall i :: i in p && i.Depend? && i.hard ==> i.dep in names
  }

  lemma HardWithinProgram(c: Config, h: History, d: Name)
    requires c.Valid() && d in c.defs
    ensures HardWithin(ProgramOf(c, h, d), c.defs[d].Hard())
  {
    hide DependPart, CommandPart;
    DependPartNames(c, h, d);
    CommandPartInOrder(c.defs[d]);
    assert forall i :: i in CommandPart(c.defs[d]) ==> !i.Depend?;
  }

  lemma SmoothProgram(c: Config, w: World, h: History, d: Name)
    requires c.Valid() && d in c.defs && Unhindered(c, w, d)
    ensures Smooth(w, ProgramOf(c, h, d))
  {
    DependPartShape(c, h, d);
    HardWithinProgram(c, h, d);
    NothingToOrder(c.order(h, d, Conflicts));
    PlainCommands(c.defs[d]);
    PlainConcat(ConflictsWith([]), CommandPart(c.defs[d]));
    PlainConcat(DependPart(c, h, d), ConflictsWith([]) + CommandPart(c.defs[d]));
    var rest := DependPart(c, h, d) + (ConflictsWith([]) + CommandPart(c.defs[d]));
    PlainConcat(Conditions(c.defs[d].conditions), rest);
    PlainConcat([Prepare, AttachLog], Conditions(c.defs[d].conditions) + rest);
  }

  /** A finished start of d closes the growth: everything reached from d is up. */
  lemma Closes(c: Config, w0: World, w: World, d: Name, p: Program, o: Outcome)
    requires w0.units.Keys == w.units.Keys == c.defs.Keys && Kept(w0, w) && w.masked == w0.masked
    requires w.IsState(d, Stopped) && d !in w.masked && d !in Dependees(p)
    requires Dependees(p) == c.defs[d].StartEdges() && Brings(c, w0, w, d, p, o)
    ensures Grown(c, w0, o.w)
    ensures forall x :: Came(w, o.w, x) ==> Reached(c, w0, d, x)
  {
    var w' := o.w.SetState(d, Stopped);
    forall x | Came(w, o.w, x)
      ensures Reached(c, w0, d, x)
    {
      ReachedUnfolds(c, w0, d, x);
      if x != d {
        assert Came(w, w', x);
        var i :| i in p && i.Depend? && Reached(c, w0, i.dep, x);
        assert i.dep in Dependees(p);
      }
    }
    forall y, x | Came(w0, o.w, y) && Reached(c, w0, y, x) && x in w.units && x !in w.masked
      ensures o.w.IsState(x, Running)
    {
      if y == d {
        ReachedFromDone(c, w0, w', d, p, x, o.w);
      } else {
        assert Came(w0, w', y);
      }
    }
  }

  lemma ReachedFromDone(c: Config, w0: World, w': World, d: Name, p: Program, x: Name, w'': World)
    requires w'.units.Keys == w0.units.Keys == c.defs.Keys && w'.masked == w0.masked && d in w0.units
    requires Grown(c, w0, w') && Started(w', p) && Dependees(p) == c.defs[d].StartEdges()
    requires Reached(c, w0, d, x) && x in w'.units && x !in w'.masked
    ensures x == d || w'.IsState(x, Running)
  {
    ReachedUnfolds(c, w0, d, x);
    if x != d {
      var r :| r in c.defs[d].StartEdges() && Reached(c, w0, r, x);
      ReachedUnfolds(c, w0, r, x);
      assert r in Dependees(p);
      var i :| i in p && i.Depend? && i.dep == r;
      if x != r {
        assert Passable(w0, r) && r in w'.units;
        assert Came(w0, w', r);
      }
    }
  }

  lemma {:induction false} StartAll(c: Config, w0: World, w: World, d: Name, manual: bool)
    requires Ready(c, w) && AllSucceed(c, w0, d) && Grown(c, w0, w)
    ensures Upped(c, w0, w, d, Start(c, w, d, manual))
    decreases Rank(c.Edges(), d), 1, 0
  {
    if d in w.units && d !in w.masked && w.IsState(d, Stopped) {
      BodyAll(c, w0, w, d, manual);
    } else {
      AtOnceAll(c, w0, w, d, manual);
    }
  }

  lemma AtOnceUpped(c: Config, w0: World, w: World, d: Name, o: Outcome)
    requires Ready(c, w) && Grown(c, w0, w) && (d !in w.units || d in w.masked || w.IsState(d, Running))
    requires Idle(w, o.w) && (o.ok <==> !(d in w.units && d in w.masked))
    ensures Upped(c, w0, w, d, o)
  {
    IdleGrown(c, w0, w, o.w);
  }

  lemma AtOnceOk(c: Config, w: World, d: Name, manual: bool)
    requires Ready(c, w) && Settled(w) && (d !in w.units || d in w.masked || w.IsState(d, Running))
    ensures Start(c, w, d, manual).ok <==> !(d in w.units && d in w.masked)
  {
  }

  lemma AtOnceAll(c: Config, w0: World, w: World, d: Name, manual: bool)
    requires Ready(c, w) && Grown(c, w0, w)
    requires d !in w.units || d in w.masked || w.IsState(d, Running)
    ensures Upped(c, w0, w, d, Start(c, w, d, manual))
  {
    hide Start, Idle, Upped;
    var o := Start(c, w, d, manual);
    AtOnceOk(c, w, d, manual);
    StartRefused(c, w, d, manual);
    if d in w.units {
      var w1 := w.Note(Enter(d));
      IdleNote(w, w1, Enter(d));
      IdleNote(w1, o.w, Returned(d, o.ok));
      IdleComposes(w, w1, o.w);
    } else {
      IdleSilent(w, o.w);
    }
    AtOnceUpped(c, w0, w, d, o);
  }

  lemma {:induction false} BodyAll(c: Config, w0: World, w: World, d: Name, manual: bool)
    requires Ready(c, w) && AllSucceed(c, w0, d) && Grown(c, w0, w) && w.IsState(d, Stopped) && d !in w.masked
    ensures Upped(c, w0, w, d, Start(c, w, d, manual))
    decreases Rank(c.Edges(), d), 0, |ProgramOf(c, w.log + [Enter(d)], d)| + 1
  {
    var h := w.log + [Enter(d)];
    var p := ProgramOf(c, h, d);
    StartUnfolds(c, w, d, manual);
    EntryIdle(c, w, d, manual);
    var w2 := CleanUp(c, Begin(c, w.Note(Enter(d)), d, manual), d).w;
    IdleGrown(c, w0, w, w2);
    SucceedsItself(c, w0, d);
    SmoothProgram(c, w, h, d);
    DependeesOfProgram(c, h, d);
    NoSelfEdge(c, d);
    ExecAll(c, w0, w2, d, p);
    var o := Exec(c, w2, d, p);
    Closes(c, w0, w2, d, p, o);
    LaunchesOfProgram(c, h, d);
    Wraps(c, w0, w, w2, d, o);
  }

  lemma NoSelfEdge(c: Config, d: Name)
    requires c.Valid() && d in c.defs
    ensures d !in c.defs[d].StartEdges()
  {
    if d in c.defs[d].StartEdges() {
      EdgeReaches(c.Edges(), d, d);
    }
  }

  /** The note of the return changes nothing that matters. */
  lemma Wraps(c: Config, w0: World, w: World, w2: World, d: Name, o: Outcome)
    requires d in c.defs && w.IsState(d, Stopped) && Idle(w, w2) && o.ok && Grown(c, w0, o.w)
    requires o.w.IsState(d, Running) && Kept(w2, o.w.SetState(d, Stopped)) && Extends(w2, o.w) && d !in w.masked
    requires forall x :: Came(w2, o.w, x) ==> Reached(c, w0, d, x)
    requires OnceEach(c, w2, o.w, d) && RanSince(w2, o.w, d) == Block(c.defs[d])
    ensures Upped(c, w0, w, d, Outcome(o.w.Note(Returned(d, o.ok)), o.ok))
  {
    hide Ran, Block, Reached;
    var w' := o.w.Note(Returned(d, o.ok));
    ExtendsTransitive(w, w2, o.w);
    ExtendsTransitive(w, o.w, w');
    ExtendsTransitive(w0, o.w, w');
    IdleNote(o.w, w', Returned(d, o.ok));
    forall x | w.IsState(x, Running)
      ensures w'.IsState(x, Running)
    {
      assert x != d && w2.IsState(x, Running) && o.w.SetState(d, Stopped).IsState(x, Running);
    }
    assert forall x :: Came(w, w', x) <==> Came(w2, o.w, x);
    forall x | x in c.defs
      ensures RanSince(w, w', x) == if Came(w, w', x) then Block(c.defs[x]) else []
    {
      RanSinceComposes(w, w2, o.w, x);
      RanSinceComposes(w, o.w, w', x);
    }
  }

  /** When nothing is in the way of the units a start has to bring up, it leaves Running exactly the units that
      were and the loaded, unmasked units reached from d; each of the latter that was down ran its whole
      block exactly once and in order, and no other unit ran anything of its own. */
  lemma StartBringsUp(c: Config, w: World, d: Name, manual: bool, x: Name)
    requires Ready(c, w) && AllSucceed(c, w, d) && Settled(w) && x in c.defs && x !in w.masked
    ensures var w' := Start(c, w, d, manual).w;
            && w'.IsState(x, if w.IsState(x, Running) || Reached(c, w, d, x) then Running else Stopped)
            && RanSince(w, w', x) ==
               if !w.IsState(x, Running) && Reached(c, w, d, x) then Block(c.defs[x]) else []
  {
    assert Grown(c, w, w);
    StartAll(c, w, w, d, manual);
    var w' := Start(c, w, d, manual).w;
    assert OnceEach(c, w, w', "") && OnceEach(c, w, w', "x");
    ReachedUnfolds(c, w, d, x);
    if Reached(c, w, d, x) && x != d {
      assert Came(w, w', d);
    }
  }
}
