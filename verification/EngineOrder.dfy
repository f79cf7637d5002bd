/** The history of a start call is a dependency order, and conflicting units are down when commands run. */
module EngineOrder {
  import opened Graph
  import opened Engine

  ghost predicate Usable(c: Config, w: World) {
    c.Valid() && w.units.Keys == c.defs.Keys
  }

  /** An ExecStartPre, ExecStart or ExecStartPost command of a loaded unit. */
  predicate Launch(c: Config, e: Event) {
    e.Did? && e.act.Command? && e.act.phase in {ExecStartPre, ExecStart, ExecStartPost} && e.d in c.defs
  }

  // ---- which units a call can bring up

  ghost predicate RaisesOnly(c: Config, w: World, w': World, d: Name) {
    forall x :: w'.IsState(x, Running) && !w.IsState(x, Running) ==> x == d || Reaches(c.Edges(), d, x)
  }

  /** A start of d brings up only d and units reachable from d along start edges. */
  lemma {:induction false} StartRaises(c: Config, w: World, d: Name, manual: bool)
    requires Usable(c, w)
    ensures RaisesOnly(c, w, Start(c, w, d, manual).w, d)
    decreases Rank(c.Edges(), d), 1, 0
  {
    hide Start, CleanUp, Begin, Exec, Reaches;
    if d in w.units && !w.shutdown && d !in w.masked && w.units[d].state in {Stopped, Restarting} {
      StartUnfolds(c, w, d, manual);
      var cleaned := CleanUp(c, Begin(c, w.Note(Enter(d)), d, manual), d);
      if cleaned.Continue? {
        ExecRaises(c, cleaned.w, d, ProgramOf(c, w.log + [Enter(d)], d));
      }
    } else {
      StartRefused(c, w, d, manual);
    }
  }

  lemma {:induction false} ExecRaises(c: Config, w: World, d: Name, p: Program)
    requires Usable(c, w) && d in w.units && Legal(c, d, p)
    ensures RaisesOnly(c, w, Exec(c, w, d, p).w, d)
    decreases Rank(c.Edges(), d), 0, |p|
  {
    if p != [] && !(p[0].Guarded() && Aborted(w, d)) && !p[0].Finish? {
      StepRaises(c, w, d, p[0]);
      var s := Step(c, w, d, p[0]);
      if s.Continue? {
        ExecRaises(c, s.w, d, p[1..]);
      }
    }
  }

  /** What is reached from a dependency is reached from its dependent. */
  lemma ReachedThrough(c: Config, d: Name, r: Name, x: Name)
    requires Edge(c.Edges(), d, r) && (x == r || Reaches(c.Edges(), r, x))
    ensures Reaches(c.Edges(), d, x)
  {
    EdgeReaches(c.Edges(), d, r);
    if x != r {
      EdgeThenReaches(c.Edges(), d, r, x);
    }
  }

  /** An instruction brings up only strict descendants of its unit. */
  lemma {:induction false} StepRaises(c: Config, w: World, d: Name, i: Instr)
    requires Usable(c, w) && d in w.units && Legal(c, d, [i])
    ensures forall x :: Step(c, w, d, i).After().IsState(x, Running) && !w.IsState(x, Running) ==>
              i.Depend? && Reaches(c.Edges(), d, x)
    decreases Rank(c.Edges(), d), 0, 0
  {
    if i.Depend? {
      hide Start, Reaches;
      assert Edge(c.Edges(), d, [i][0].dep);
      RankDecreases(c.Edges(), d, i.dep);
      StartRaises(c, w, i.dep, false);
      forall x | Step(c, w, d, i).After().IsState(x, Running) && !w.IsState(x, Running)
        ensures Reaches(c.Edges(), d, x)
      {
        assert Start(c, w, i.dep, false).w.IsState(x, Running);
        ReachedThrough(c, d, i.dep, x);
      }
    } else {
      OthersRaiseNothing(c, w, d, i);
    }
  }

  lemma OthersRaiseNothing(c: Config, w: World, d: Name, i: Instr)
    requires Usable(c, w) && d in w.units && Legal(c, d, [i]) && !i.Depend?
    ensures forall x :: Step(c, w, d, i).After().IsState(x, Running) ==> w.IsState(x, Running)
  {
    hide RunStop;
  }

  /** A dependency never leads back to its dependent. */
  lemma NotBehind(c: Config, d: Name, r: Name)
    requires c.Valid() && Edge(c.Edges(), d, r)
    ensures d != r && !Reaches(c.Edges(), r, d)
  {
    EdgeReaches(c.Edges(), d, r);
    if Reaches(c.Edges(), r, d) {
      EdgeThenReaches(c.Edges(), d, r, d);
    }
  }

  // ---- stop commands are not launches

  ghost predicate NoLaunch(c: Config, w: World, w': World) {
    && w.log <= w'.log
    && forall i :: |w.log| <= i < |w'.log| ==> !Launch(c, w'.log[i])
  }

  lemma {:induction false} StopLinesLaunchNothing(c: Config, w: World, d: Name, phase: Phase, lines: seq<string>)
    requires d in w.units && phase in {ExecStopPre, ExecStop, ExecStopPost}
    ensures NoLaunch(c, w, RunStopLines(c, w, d, phase, lines))
    decreases |lines|
  {
    if lines != [] {
      var o := Perform(c, w, d, Command(phase, lines[0]));
      StopLinesLaunchNothing(c, if o.ok then o.w else o.w.SetFailed(d, true), d, phase, lines[1..]);
    }
  }

  lemma StopLaunchesNothing(c: Config, w: World, d: Name, announce: bool)
    requires w.units.Keys == c.defs.Keys
    ensures NoLaunch(c, w, Stop(c, w, d, announce).w)
  {
    hide RunStop;
    if d in w.units && d !in w.masked {
      var w1 := if !w.IsState(d, Restarting) || announce then w.SetState(d, Stopping) else w;
      var o := Perform(c, w1, d, OpenLog);
      if o.ok {
        RunStopLaunchesNothing(c, o.w, d);
        NoLaunchComposes(c, w, o.w, RunStop(c, o.w, d));
      }
    }
  }

  lemma NoLaunchComposes(c: Config, w0: World, w1: World, w2: World)
    requires NoLaunch(c, w0, w1) && NoLaunch(c, w1, w2)
    ensures NoLaunch(c, w0, w2)
  {
    forall i | |w0.log| <= i < |w2.log|
      ensures !Launch(c, w2.log[i])
    {
      if i < |w1.log| {
        assert w1.log[i] == w2.log[i];
      }
    }
  }

  lemma RunStopLaunchesNothing(c: Config, w: World, d: Name)
    requires w.units.Keys == c.defs.Keys && d in w.units
    ensures NoLaunch(c, w, RunStop(c, w, d))
  {
    hide RunStopLines;
    var w1 := RunStopLines(c, w, d, ExecStopPre, c.defs[d].stopPre);
    StopLinesLaunchNothing(c, w, d, ExecStopPre, c.defs[d].stopPre);
    var w2 := RunStopLines(c, w1, d, ExecStop, c.defs[d].stop);
    StopLinesLaunchNothing(c, w1, d, ExecStop, c.defs[d].stop);
    NoLaunchComposes(c, w, w1, w2);
    var w3 := RunStopLines(c, w2, d, ExecStopPost, c.defs[d].stopPost);
    StopLinesLaunchNothing(c, w2, d, ExecStopPost, c.defs[d].stopPost);
    NoLaunchComposes(c, w, w2, w3);
    NoLaunchComposes(c, w, w3, RunStop(c, w, d));
  }

  // ---- the order theorem

  ghost predicate Seen(log: History, from: nat, to: nat, r: Name) {
    exists q :: from <= q < to <= |log| && log[q] == Returned(r, true)
  }

  /** What holds when the event at position p is a launch, of the history since `from`. */
  ghost predicate LaunchOk(c: Config, log: History, from: nat, p: nat)
    requires p < |log|
  {
    Launch(c, log[p]) ==>
      && log[p].d !in log[p].running
      && c.defs[log[p].d].Names(Conflicts) !! log[p].running
      && forall r :: r in c.defs && r in c.defs[log[p].d].Names(Requires) + c.defs[log[p].d].Names(BindsTo) ==>
           Seen(log, from, p, r)
  }

  ghost predicate AllOk(c: Config, log: History, from: nat) {
    forall p :: from <= p < |log| ==> LaunchOk(c, log, from, p)
  }

  /** What held of a launch goes on to hold in a longer history, and since an earlier beginning. */
  lemma LaunchOkGrows(c: Config, log: History, log': History, from: nat, from': nat, p: nat)
    requires from' <= from && p < |log| && log <= log' && LaunchOk(c, log, from, p)
    ensures LaunchOk(c, log', from', p)
  {
    assert log[p] == log'[p];
    if Launch(c, log[p]) {
      forall r | r in c.defs && r in c.defs[log[p].d].Hard()
        ensures Seen(log', from', p, r)
      {
        assert Seen(log, from, p, r);
        var q :| from <= q < p <= |log| && log[q] == Returned(r, true);
        assert log'[q] == Returned(r, true);
      }
    }
  }

  lemma AllOkComposes(c: Config, log1: History, log2: History, from: nat)
    requires from <= |log1| && log1 <= log2
    requires AllOk(c, log1, from) && AllOk(c, log2, |log1|)
    ensures AllOk(c, log2, from)
  {
    hide LaunchOk;
    forall p | from <= p < |log2|
      ensures LaunchOk(c, log2, from, p)
    {
      if p < |log1| {
        LaunchOkGrows(c, log1, log2, from, from, p);
      } else {
        LaunchOkGrows(c, log2, log2, |log1|, from, p);
      }
    }
  }

  lemma QuietExtension(c: Config, w: World, w': World, from: nat)
    requires from <= |w.log| && AllOk(c, w.log, from) && NoLaunch(c, w, w')
    ensures AllOk(c, w'.log, from)
  {
    assert AllOk(c, w'.log, |w.log|);
    AllOkComposes(c, w.log, w'.log, from);
  }

  function Stage(i: Instr): nat {
    match i
    case Prepare => 0
    case AttachLog => 1
    case Condition(_) => 2
    case Depend(_, _) => 3
    case Conflict(_) => 4
    case Run(phase, _) => if phase == ExecStartPre then 5 else if phase == ExecStart then 6 else 7
    case Finish => 8
  }

  ghost predicate InOrder(p: Program) {
    && (forall i, j :: 0 <= i < j < |p| ==> Stage(p[i]) <= Stage(p[j]))
    && (forall i :: i in p && i.Run? ==> i.phase in {ExecStartPre, ExecStart, ExecStartPost})
  }

  lemma OrderConcat(a: Program, b: Program, k: nat)
    requires InOrder(a) && InOrder(b)
    requires (forall i :: i in a ==> Stage(i) <= k) && (forall i :: i in b ==> Stage(i) >= k)
    ensures InOrder(a + b)
  {
    var p := a + b;
    forall i, j | 0 <= i < j < |p|
      ensures Stage(p[i]) <= Stage(p[j])
    {
      assert p[i] in (if i < |a| then a else b) && p[j] in (if j < |a| then a else b);
    }
  }

  lemma OneStage(p: Program, k: nat)
    requires k == 3 || k == 4
    requires forall i :: i in p ==> Stage(i) == k
    ensures InOrder(p)
  {
    forall i, j | 0 <= i < j < |p|
      ensures Stage(p[i]) <= Stage(p[j])
    {
      assert p[i] in p && p[j] in p;
    }
  }

  lemma RunsInOrder(phase: Phase, lines: seq<string>, rest: Program, k: nat)
    requires phase in {ExecStartPre, ExecStart, ExecStartPost} && k == Stage(Run(phase, ""))
    requires InOrder(rest) && forall i :: i in rest ==> Stage(i) >= k
    ensures InOrder(Runs(phase, lines) + rest) && forall i :: i in Runs(phase, lines) + rest ==> Stage(i) >= k
  {
    var p := Runs(phase, lines);
    assert forall i :: i in p ==> i.Run? && i.phase == phase;
    assert InOrder(p);
    OrderConcat(p, rest, k);
  }

  lemma CommandPartInOrder(def: Def)
    ensures InOrder(CommandPart(def)) && forall i :: i in CommandPart(def) ==> Stage(i) >= 5
  {
    hide InOrder, Runs;
    var main := Runs(ExecStart, def.start) + (Runs(ExecStartPost, def.startPost) + [Finish]);
    FinishInOrder();
    RunsInOrder(ExecStartPost, def.startPost, [Finish], 7);
    RunsInOrder(ExecStart, def.start, Runs(ExecStartPost, def.startPost) + [Finish], 6);
    RunsInOrder(ExecStartPre, def.startPre, main, 5);
  }

  lemma FinishInOrder()
    ensures InOrder([Finish])
  {
  }

  lemma DependPartShape(c: Config, h: History, d: Name)
    requires c.Valid() && d in c.defs
    ensures var p := DependPart(c, h, d);
            && (forall i :: i in p ==> i.Depend?)
            && forall r :: r in c.defs[d].Hard() ==> Depend(r, true) in p
  {
    forall r | r in c.defs[d].Hard()
      ensures Depend(r, true) in DependPart(c, h, d)
    {
      var o := c.order(h, d, if r in c.defs[d].Names(Requires) then Requires else BindsTo);
      var i :| 0 <= i < |o| && o[i] == r;
      assert Depends(o, true)[i] == Depend(r, true);
      assert Depend(r, true) in Depends(o, true);
    }
  }

  lemma ConflictPartShape(c: Config, h: History, d: Name)
    requires c.Valid() && d in c.defs
    ensures var p := ConflictsWith(c.order(h, d, Conflicts));
            && (forall i :: i in p ==> i.Conflict?)
            && forall k :: k in c.defs[d].Names(Conflicts) ==> Conflict(k) in p
  {
    var o := c.order(h, d, Conflicts);
    forall k | k in c.defs[d].Names(Conflicts)
      ensures Conflict(k) in ConflictsWith(o)
    {
      var i :| 0 <= i < |o| && o[i] == k;
      assert ConflictsWith(o)[i] == Conflict(k);
    }
  }

  lemma ProgramInOrder(c: Config, h: History, d: Name)
    requires c.Valid() && d in c.defs
    ensures InOrder(ProgramOf(c, h, d))
  {
    hide DependPart, CommandPart;
    DependPartShape(c, h, d);
    ConflictPartShape(c, h, d);
    CommandPartInOrder(c.defs[d]);
    var conflicts := ConflictsWith(c.order(h, d, Conflicts));
    var p5 := CommandPart(c.defs[d]);
    OneStage(conflicts, 4);
    OrderConcat(conflicts, p5, 5);
    OneStage(DependPart(c, h, d), 3);
    var p4 := conflicts + p5;
    OrderConcat(DependPart(c, h, d), p4, 4);
    var p3 := DependPart(c, h, d) + p4;
    OrderConcat(Conditions(c.defs[d].conditions), p3, 3);
    OrderConcat([Prepare, AttachLog], Conditions(c.defs[d].conditions) + p3, 2);
  }

  lemma ProgramShape(c: Config, h: History, d: Name)
    requires c.Valid() && d in c.defs
    ensures var p := ProgramOf(c, h, d);
            && InOrder(p)
            && (forall r :: r in c.defs[d].Hard() ==> Depend(r, true) in p)
            && (forall k :: k in c.defs[d].Names(Conflicts) ==> Conflict(k) in p)
  {
    ProgramInOrder(c, h, d);
    DependPartShape(c, h, d);
    ConflictPartShape(c, h, d);
  }

  /** While d is on its way up: it is not Running; each conflict is still to be stopped or is down for good;
      each hard dependency is still to be started or has returned success. */
  ghost predicate OnTrack(c: Config, w: World, d: Name, p: Program, from: nat)
    requires d in c.defs
  {
    && InOrder(p)
    && !w.IsState(d, Running)
    && (forall k :: k in c.defs[d].Names(Conflicts) ==>
         Conflict(k) in p || (!w.IsState(k, Running) && forall i :: i in p ==> !i.Depend?))
    && (forall r :: r in c.defs && r in c.defs[d].Hard() ==> Depend(r, true) in p || Seen(w.log, from, |w.log|, r))
  }

  lemma {:induction false} ExecOrdered(c: Config, w: World, d: Name, p: Program, from: nat)
    requires Usable(c, w) && d in w.units && Legal(c, d, p) && from <= |w.log|
    requires OnTrack(c, w, d, p, from) && AllOk(c, w.log, from)
    ensures AllOk(c, Exec(c, w, d, p).w.log, from)
    decreases Rank(c.Edges(), d), 0, |p|
  {
    if p != [] && !(p[0].Guarded() && Aborted(w, d)) && !p[0].Finish? {
      var s := Step(c, w, d, p[0]);
      StepOrdered(c, w, d, p, from);
      if s.Continue? {
        StepOnTrack(c, w, d, p, from);
        ExecOrdered(c, s.w, d, p[1..], from);
      }
    }
  }

  lemma {:induction false} StepOrdered(c: Config, w: World, d: Name, p: Program, from: nat)
    requires Usable(c, w) && d in w.units && Legal(c, d, p) && from <= |w.log|
    requires p != [] && OnTrack(c, w, d, p, from) && AllOk(c, w.log, from)
    ensures AllOk(c, Step(c, w, d, p[0]).After().log, from)
    decreases Rank(c.Edges(), d), 0, 0
  {
    hide Start, Stop, AllOk, OnTrack;
    var w' := Step(c, w, d, p[0]).After();
    match p[0]
    case Depend(r, hard) =>
      assert Edge(c.Edges(), d, p[0].dep);
      RankDecreases(c.Edges(), d, r);
      StartOrdered(c, w, r, false);
      AllOkComposes(c, w.log, Start(c, w, r, false).w.log, from);
    case Conflict(x) =>
      StopLaunchesNothing(c, w, x, true);
      QuietExtension(c, w, Stop(c, w, x, true).w, from);
    case Run(phase, line) =>
      RunOrdered(c, w, d, p, from);
    case _ =>
      QuietExtension(c, w, w', from);
  }

  lemma RunOrdered(c: Config, w: World, d: Name, p: Program, from: nat)
    requires Usable(c, w) && d in w.units && from <= |w.log|
    requires p != [] && p[0].Run? && OnTrack(c, w, d, p, from) && AllOk(c, w.log, from)
    ensures AllOk(c, RunCommand(c, w, d, p[0].phase, p[0].line).After().log, from)
  {
    LaunchIsOk(c, w, d, p, from);
    var o := Perform(c, w, d, Command(p[0].phase, Bare(p[0].line)));
    StopLaunchesNothing(c, o.w, d, true);
    QuietExtension(c, o.w, Stop(c, o.w, d, true).w, from);
  }

  /** The heart of the order: at a Run instruction nothing is left to start or to stop. */
  lemma LaunchIsOk(c: Config, w: World, d: Name, p: Program, from: nat)
    requires Usable(c, w) && d in w.units && from <= |w.log|
    requires p != [] && p[0].Run? && OnTrack(c, w, d, p, from) && AllOk(c, w.log, from)
    ensures AllOk(c, Perform(c, w, d, Command(p[0].phase, Bare(p[0].line))).w.log, from)
  {
    var log' := Perform(c, w, d, Command(p[0].phase, Bare(p[0].line))).w.log;
    forall r | r in c.defs && r in c.defs[d].Hard()
      ensures Seen(log', from, |w.log|, r)
    {
      assert Seen(w.log, from, |w.log|, r);
      var q :| from <= q < |w.log| && w.log[q] == Returned(r, true);
      assert log'[q] == Returned(r, true);
    }
    forall q | from <= q < |w.log|
      ensures LaunchOk(c, log', from, q)
    {
      assert LaunchOk(c, w.log, from, q);
      LaunchOkGrows(c, w.log, log', from, from, q);
    }
  }

  lemma SeenGrows(w: World, w': World, from: nat, r: Name)
    requires w.log <= w'.log && Seen(w.log, from, |w.log|, r)
    ensures Seen(w'.log, from, |w'.log|, r)
  {
    var q :| from <= q < |w.log| && w.log[q] == Returned(r, true);
    assert w'.log[q] == Returned(r, true);
  }

  lemma NoDependAfterConflict(p: Program)
    requires InOrder(p) && p != [] && p[0].Conflict?
    ensures forall i :: i in p[1..] ==> !i.Depend?
  {
    forall i | i in p[1..]
      ensures !i.Depend?
    {
      var j :| 0 <= j < |p[1..]| && p[1..][j] == i;
      assert Stage(p[0]) <= Stage(p[j + 1]);
    }
  }

  lemma ConflictOnTrack(c: Config, w: World, d: Name, p: Program, from: nat, k: Name)
    requires Usable(c, w) && d in w.units && p != [] && Legal(c, d, p) && Legal(c, d, [p[0]])
    requires OnTrack(c, w, d, p, from) && Step(c, w, d, p[0]).Continue?
    requires k in c.defs[d].Names(Conflicts) && Conflict(k) !in p[1..]
    ensures !Step(c, w, d, p[0]).w.IsState(k, Running) && forall i :: i in p[1..] ==> !i.Depend?
  {
    if p[0] == Conflict(k) {
      NoDependAfterConflict(p);
    } else {
      assert p[0] in p && forall i :: i in p ==> i == p[0] || i in p[1..];
      StepRaises(c, w, d, p[0]);
    }
  }

  lemma HardOnTrack(c: Config, w: World, d: Name, p: Program, from: nat, r: Name)
    requires Usable(c, w) && d in w.units && p != [] && Legal(c, d, p) && Legal(c, d, [p[0]]) && from <= |w.log|
    requires OnTrack(c, w, d, p, from) && Step(c, w, d, p[0]).Continue?
    requires r in c.defs && r in c.defs[d].Hard() && Depend(r, true) !in p[1..]
    ensures Seen(Step(c, w, d, p[0]).w.log, from, |Step(c, w, d, p[0]).w.log|, r)
  {
    var w' := Step(c, w, d, p[0]).w;
    if p[0] == Depend(r, true) {
      assert w'.log[|w'.log| - 1] == Returned(r, true);
    } else {
      assert p == [p[0]] + p[1..];
      SeenGrows(w, w', from, r);
    }
  }

  lemma StepOnTrack(c: Config, w: World, d: Name, p: Program, from: nat)
    requires Usable(c, w) && d in w.units && Legal(c, d, p) && from <= |w.log|
    requires p != [] && OnTrack(c, w, d, p, from) && Step(c, w, d, p[0]).Continue?
    ensures OnTrack(c, Step(c, w, d, p[0]).w, d, p[1..], from)
  {
    var w' := Step(c, w, d, p[0]).w;
    forall r | r in c.defs && r in c.defs[d].Hard() && Depend(r, true) !in p[1..]
      ensures Seen(w'.log, from, |w'.log|, r)
    {
      HardOnTrack(c, w, d, p, from, r);
    }
    forall k | k in c.defs[d].Names(Conflicts) && Conflict(k) !in p[1..]
      ensures !w'.IsState(k, Running) && forall i :: i in p[1..] ==> !i.Depend?
    {
      ConflictOnTrack(c, w, d, p, from, k);
    }
    assert !w'.IsState(d, Running) by {
      StepRaises(c, w, d, p[0]);
    }
    assert InOrder(p[1..]) by {
      assert forall i :: 0 <= i < |p[1..]| ==> p[1..][i] == p[i + 1];
    }
  }

  lemma NothingSince(c: Config, log: History)
    ensures AllOk(c, log, |log|)
  {
  }

  lemma StartNote(c: Config, w: World, e: Event, from: nat)
    requires from <= |w.log| && AllOk(c, w.log, from) && !Launch(c, e)
    ensures AllOk(c, w.Note(e).log, from)
  {
    QuietExtension(c, w, w.Note(e), from);
  }

  /** Every history a start call adds is ordered: a launch of d comes after the successful return of each of
      its loaded Requires and BindsTo dependencies, while d is not yet Running and nothing in d's Conflicts
      is. No hypothesis on states, command results, conditions, masks or iteration order. */
  lemma {:induction false} StartOrdered(c: Config, w: World, d: Name, manual: bool)
    requires Usable(c, w)
    ensures AllOk(c, Start(c, w, d, manual).w.log, |w.log|)
    decreases Rank(c.Edges(), d), 1, 0
  {
    hide Start, StartLoaded, CleanUp, Exec, AllOk;
    var w0 := w.Note(Enter(d));
    NothingSince(c, w.log);
    StartNote(c, w, Enter(d), |w.log|);
    if d in w.units && !w.shutdown && d !in w.masked && w.units[d].state in {Stopped, Restarting} {
      StartUnfolds(c, w, d, manual);
      var b, p := Begin(c, w0, d, manual), ProgramOf(c, w0.log, d);
      BodyOrdered(c, b, d, p, |w.log|);
      var cleaned := CleanUp(c, b, d);
      var o := if cleaned.Continue? then Exec(c, cleaned.w, d, p) else cleaned.o;
      StartNote(c, o.w, Returned(d, o.ok), |w.log|);
    } else {
      StartRefused(c, w, d, manual);
      StartNote(c, w0, Returned(d, Start(c, w, d, manual).ok), |w.log|);
    }
  }

  lemma {:induction false} BodyOrdered(c: Config, w: World, d: Name, p: Program, from: nat)
    requires Usable(c, w) && d in w.units && Legal(c, d, p) && from <= |w.log| && AllOk(c, w.log, from)
    requires exists h :: p == ProgramOf(c, h, d)
    ensures AllOk(c, CleanUp(c, w, d).After().log, from)
    ensures CleanUp(c, w, d).Continue? ==> AllOk(c, Exec(c, CleanUp(c, w, d).w, d, p).w.log, from)
    decreases Rank(c.Edges(), d), 0, |p| + 1
  {
    var cleaned := CleanUp(c, w, d);
    StopLaunchesNothing(c, w, d, false);
    QuietExtension(c, w, cleaned.After(), from);
    if cleaned.Continue? {
      var h :| p == ProgramOf(c, h, d);
      ProgramShape(c, h, d);
      ExecOrdered(c, cleaned.w, d, p, from);
    }
  }
}
