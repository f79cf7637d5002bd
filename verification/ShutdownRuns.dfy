/** The goroutines of the shutdown model on the whole: left alone one of them runs everything its unit asks for, two of
    them never run the same unit at a time, and none of them raises a masked unit. */
module ShutdownRuns {
  import opened Engine
  import opened Shutdown
  import opened Options

  // ---- a goroutine left alone

  /** Goroutine i moves; the world says yes to everything. */
  function Yes(i: nat, d: Name, h: History): Action {
    Move(i, Choice(d, h, false, true))
  }

  ghost predicate Alone(schedule: seq<Action>, i: nat, d: Name, h: History) {
    forall a :: a in schedule ==> a == Yes(i, d, h)
  }

  lemma {:induction false} AdvanceConcat(c: Config, s: System, a: seq<Action>, b: seq<Action>)
    ensures AdvanceAll(c, s, a + b) == AdvanceAll(c, AdvanceAll(c, s, a), b)
    decreases |a|
  {
    hide Advance;
    if a == [] {
      assert a + b == b;
    } else {
      assert (a + b)[1..] == a[1..] + b;
      AdvanceConcat(c, Advance(c, s, a[0]), a[1..], b);
    }
  }

  /** s with goroutine i at t. */
  function With(s: System, i: nat, t: Thread): System
    requires i < |s.threads|
  {
    s.(threads := s.threads[i := t])
  }

  lemma OneMove(c: Config, s: System, i: nat, d: Name, h: History, t: Thread)
    requires i < |s.threads| && MoveThread(c, s, s.threads[i], Choice(d, h, false, true)) == Effect(t, None)
    ensures Advance(c, s, Yes(i, d, h)) == With(s, i, t)
  {
    hide MoveThread;
  }

  /** A list of moves of one goroutine that write nothing. */
  lemma {:induction false} Moves(c: Config, s: System, i: nat, d: Name, h: History, ts: seq<Thread>)
    returns (schedule: seq<Action>)
    requires i < |s.threads| && ts != [] && s.threads[i] == ts[0]
    requires forall k :: 0 <= k < |ts| - 1 ==>
               MoveThread(c, With(s, i, ts[k]), ts[k], Choice(d, h, false, true)) == Effect(ts[k + 1], None)
    ensures Alone(schedule, i, d, h) && AdvanceAll(c, s, schedule) == With(s, i, ts[|ts| - 1])
    decreases |ts|
  {
    hide MoveThread;
    assert With(s, i, ts[0]) == s;
    if |ts| == 1 {
      schedule := [];
    } else {
      OneMove(c, s, i, d, h, ts[1]);
      var s1 := With(s, i, ts[1]);
      assert forall t :: With(s1, i, t) == With(s, i, t);
      forall k | 0 <= k < |ts| - 2
        ensures MoveThread(c, With(s1, i, ts[1..][k]), ts[1..][k], Choice(d, h, false, true)) == Effect(ts[1..][k + 1], None)
      {
        assert ts[1..][k] == ts[k + 1] && ts[1..][k + 1] == ts[k + 2];
      }
      var rest := Moves(c, s1, i, d, h, ts[1..]);
      schedule := [Yes(i, d, h)] + rest;
      assert schedule[1..] == rest;
    }
  }

  /** A dependency that needs no start: not loaded, or up. */
  predicate Settled(c: Config, s: System, r: Name) {
    r !in s.state || r !in c.defs || (s.state[r] == DaemonState.Running && r !in s.masked)
  }

  function Launched(t: Thread, p: Program): nat
    requires p != []
  {
    t.launched + if IsLaunch(p[0]) then 1 else 0
  }

  /** One instruction, whose checks all pass. */
  lemma InstrAlone(c: Config, s: System, i: nat, d: Name, h: History, p: Program) returns (schedule: seq<Action>)
    requires i < |s.threads| && s.threads[i].stack == [At(d, p, false)] && !s.shutdown
    requires p != [] && !p[0].Finish? && (p[0].Depend? ==> Settled(c, s, p[0].dep))
    ensures Alone(schedule, i, d, h)
    ensures var t := s.threads[i];
            AdvanceAll(c, s, schedule) == With(s, i, Thread([At(d, p[1..], false)], Launched(t, p), t.raised))
  {
    var t := s.threads[i];
    var t1 := t.(stack := [At(d, p, true)]);
    var on := Thread([At(d, p[1..], false)], Launched(t, p), t.raised);
    if !p[0].Guarded() {
      schedule := Moves(c, s, i, d, h, [t, on]);
    } else if !p[0].Depend? {
      schedule := Moves(c, s, i, d, h, [t, t1, on]);
    } else {
      var r := p[0].dep;
      var t2 := t.(stack := [At(d, p, true), Entry(r)]);
      var t3 := t.(stack := [At(d, p, true), Admitted(r)]);
      var t4 := t.(stack := [At(d, p, true), Done(r, true)]);
      SettledCall(c, s, i, d, h, p, t);
      schedule := Moves(c, s, i, d, h, [t, t1, t2, t3, t4, on]);
    }
  }

  /** A settled dependency is called and comes back at once. */
  lemma SettledCall(c: Config, s: System, i: nat, d: Name, h: History, p: Program, t: Thread)
    requires i < |s.threads| && !s.shutdown && p != [] && p[0].Depend? && Settled(c, s, p[0].dep)
    ensures var r, yes := p[0].dep, Choice(d, h, false, true);
            var t1 := t.(stack := [At(d, p, true)]);
            var t2 := t.(stack := [At(d, p, true), Entry(r)]);
            var t3 := t.(stack := [At(d, p, true), Admitted(r)]);
            var t4 := t.(stack := [At(d, p, true), Done(r, true)]);
            var on := t.(stack := [At(d, p[1..], false)]);
            && MoveThread(c, With(s, i, t1), t1, yes) == Effect(t2, None)
            && MoveThread(c, With(s, i, t2), t2, yes) == Effect(t3, None)
            && MoveThread(c, With(s, i, t3), t3, yes) == Effect(t4, None)
            && MoveThread(c, With(s, i, t4), t4, yes) == Effect(on, None)
  {
  }

  function Count(p: Program): nat {
    if p == [] then 0 else (if IsLaunch(p[0]) then 1 else 0) + Count(p[1..])
  }

  /** All that is left of a program, up to the end of its call. */
  lemma {:induction false} RestAlone(c: Config, s: System, i: nat, d: Name, h: History, p: Program)
    returns (schedule: seq<Action>)
    requires i < |s.threads| && s.threads[i].stack == [At(d, p, false)] && !s.shutdown
    requires d in s.state && s.state[d] != Stopping
    requires p != [] && p[|p| - 1].Finish? && forall k :: 0 <= k < |p| - 1 ==> !p[k].Finish?
    requires forall k :: 0 <= k < |p| && p[k].Depend? ==> Settled(c, s, p[k].dep)
    ensures Alone(schedule, i, d, h)
    ensures var t := s.threads[i];
            AdvanceAll(c, s, schedule) ==
            With(s, i, Thread([], t.launched + Count(p), t.raised + 1)).(state := s.state[d := DaemonState.Running])
    decreases |p|
  {
    hide MoveThread, Advance;
    var t := s.threads[i];
    if |p| == 1 {
      schedule := LastAlone(c, s, i, d, h, p);
      assert p[1..] == [] && Count(p[1..]) == 0;
    } else {
      var first := InstrAlone(c, s, i, d, h, p);
      var t1 := Thread([At(d, p[1..], false)], Launched(t, p), t.raised);
      var s1 := With(s, i, t1);
      assert forall t' :: With(s1, i, t') == With(s, i, t');
      var rest := RestAlone(c, s1, i, d, h, p[1..]);
      schedule := first + rest;
      AdvanceConcat(c, s, first, rest);
    }
  }

  lemma LastAlone(c: Config, s: System, i: nat, d: Name, h: History, p: Program) returns (schedule: seq<Action>)
    requires i < |s.threads| && s.threads[i].stack == [At(d, p, false)] && d in s.state && s.state[d] != Stopping
    requires |p| == 1 && p[0].Finish?
    ensures Alone(schedule, i, d, h)
    ensures var t := s.threads[i];
            AdvanceAll(c, s, schedule) ==
            With(s, i, Thread([], t.launched, t.raised + 1)).(state := s.state[d := DaemonState.Running])
  {
    var t := s.threads[i];
    var a := Yes(i, d, h);
    schedule := [a, a];
    var s1 := Raises(c, s, i, d, h, p);
    OneMove(c, s1, i, d, h, Thread([], t.launched, t.raised + 1));
    hide Advance;
    assert [a, a][1..] == [a] && [a][1..] == [];
    assert AdvanceAll(c, s, [a, a]) == AdvanceAll(c, s1, [a]);
    assert AdvanceAll(c, s1, [a]) == Advance(c, s1, a);
  }

  lemma Raises(c: Config, s: System, i: nat, d: Name, h: History, p: Program) returns (s': System)
    requires i < |s.threads| && s.threads[i].stack == [At(d, p, false)] && d in s.state && s.state[d] != Stopping
    requires |p| == 1 && p[0].Finish?
    ensures s' == Advance(c, s, Yes(i, d, h))
    ensures var t := s.threads[i];
            s' == With(s, i, Thread([Done(d, true)], t.launched, t.raised + 1)).(state := s.state[d := DaemonState.Running])
  {
    hide ProgramOf;
    var t := s.threads[i];
    s' := Advance(c, s, Yes(i, d, h));
    assert t.stack[..0] + [Done(d, true)] == [Done(d, true)];
  }

  // ---- what a program counts

  lemma {:induction false} CountConcat(p: Program, q: Program)
    ensures Count(p + q) == Count(p) + Count(q)
    decreases |p|
  {
    if p == [] {
      assert p + q == q;
    } else {
      assert (p + q)[1..] == p[1..] + q;
      CountConcat(p[1..], q);
    }
  }

  lemma {:induction false} CountUniform(p: Program, launch: bool)
    requires forall k :: 0 <= k < |p| ==> IsLaunch(p[k]) == launch
    ensures Count(p) == if launch then |p| else 0
    decreases |p|
  {
    if p != [] {
      CountUniform(p[1..], launch);
    }
  }

  /** A program launches each condition, ExecStartPre, ExecStart and ExecStartPost line once. */
  lemma ProgramCounts(c: Config, h: History, d: Name)
    requires d in c.defs
    ensures var def := c.defs[d];
            Count(ProgramOf(c, h, d)) == |def.conditions| + |def.startPre| + |def.start| + |def.startPost|
  {
    hide Count;
    var def := c.defs[d];
    var a, b := Conditions(def.conditions), DependPart(c, h, d);
    var e, f := ConflictsWith(c.order(h, d, Conflicts)), CommandPart(def);
    CountConcat([Prepare, AttachLog], a + (b + (e + f)));
    CountConcat(a, b + (e + f));
    CountConcat(b, e + f);
    CountConcat(e, f);
    CountUniform([Prepare, AttachLog], false);
    CountUniform(a, true);
    CountUniform(b, false);
    CountUniform(e, false);
    CommandsCount(def);
  }

  lemma CommandsCount(def: Def)
    ensures Count(CommandPart(def)) == |def.startPre| + |def.start| + |def.startPost|
  {
    hide Count;
    var a, b, e := Runs(ExecStartPre, def.startPre), Runs(ExecStart, def.start), Runs(ExecStartPost, def.startPost);
    CountConcat(a, b + (e + [Finish]));
    CountConcat(b, e + [Finish]);
    CountConcat(e, [Finish]);
    CountUniform(a, true);
    CountUniform(b, true);
    CountUniform(e, true);
    CountUniform([Finish], false);
  }

  /** Only the last instruction raises the unit, and every dependency is a start edge. */
  lemma ProgramShape(c: Config, h: History, d: Name)
    requires c.Valid() && d in c.defs
    ensures var p := ProgramOf(c, h, d);
            && p != [] && p[|p| - 1].Finish?
            && (forall k :: 0 <= k < |p| - 1 ==> !p[k].Finish?)
            && forall k :: 0 <= k < |p| && p[k].Depend? ==> p[k].dep in c.defs[d].StartEdges()
  {
    var p := ProgramOf(c, h, d);
    var def := c.defs[d];
    var f := CommandPart(def);
    assert |p| >= |f| && p[|p| - |f|..] == f;
    assert f[|f| - 1] == Finish;
    DependShape(c, h, d);
  }

  lemma DependShape(c: Config, h: History, d: Name)
    requires c.Valid() && d in c.defs
    ensures forall i :: i in DependPart(c, h, d) ==> i.Depend? && i.dep in c.defs[d].StartEdges()
  {
    assert forall r :: IsOrder(c.order(h, d, r), c.defs[d].Names(r));
  }

  /** A call for a unit that is down and not masked, made while the flag is not set and every dependency is up, and left
      alone: each condition, ExecStartPre, ExecStart and ExecStartPost line is launched once, the unit alone is Running
      afterwards, and the call is over. */
  lemma AloneRunsAll(c: Config, s: System, i: nat, d: Name, h: History) returns (schedule: seq<Action>)
    requires c.Valid() && i < |s.threads| && s.threads[i].stack == [] && !s.shutdown
    requires d in c.defs && d in s.state && s.state[d] in {Stopped, Restarting} && d !in s.masked
    requires forall r :: r in c.defs[d].StartEdges() ==> r != d && Settled(c, s, r)
    ensures Alone(schedule, i, d, h)
    ensures var t, def := s.threads[i], c.defs[d];
            AdvanceAll(c, s, schedule) ==
            s.(threads := s.threads[i := Thread([], t.launched + |def.conditions| + |def.startPre| + |def.start| +
                                                        |def.startPost|, t.raised + 1)],
               state := s.state[d := DaemonState.Running])
  {
    hide Advance, MoveThread, ProgramOf;
    var p := ProgramOf(c, h, d);
    ProgramShape(c, h, d);
    ProgramCounts(c, h, d);
    var first, s1 := EntersAlone(c, s, i, d, h);
    var rest := RestAlone(c, s1, i, d, h, p);
    schedule := first + rest;
    AdvanceConcat(c, s, first, rest);
  }

  /** The way in, up to the first instruction. */
  lemma EntersAlone(c: Config, s: System, i: nat, d: Name, h: History) returns (schedule: seq<Action>, s': System)
    requires i < |s.threads| && s.threads[i].stack == [] && !s.shutdown
    requires d in c.defs && d in s.state && s.state[d] in {Stopped, Restarting} && d !in s.masked
    ensures Alone(schedule, i, d, h) && AdvanceAll(c, s, schedule) == s'
    ensures s' == With(s, i, s.threads[i].(stack := [At(d, ProgramOf(c, h, d), false)])).(
                    state := if s.state[d] == Restarting then s.state else s.state[d := Starting])
  {
    hide ProgramOf, Advance, MoveThread;
    var t, a, p := s.threads[i], Yes(i, d, h), ProgramOf(c, h, d);
    var before := Knocks(c, s, i, d, h);
    var s3 := BeginsAlone(c, s, i, d, h);
    var after := Cleans(c, s3, i, d, h, p);
    schedule := before + ([a] + after);
    AdvanceConcat(c, s, before, [a] + after);
    assert ([a] + after)[1..] == after;
    s' := AdvanceAll(c, s3, after);
  }

  lemma Knocks(c: Config, s: System, i: nat, d: Name, h: History) returns (schedule: seq<Action>)
    requires i < |s.threads| && s.threads[i].stack == [] && !s.shutdown
    ensures Alone(schedule, i, d, h)
    ensures AdvanceAll(c, s, schedule) == With(s, i, s.threads[i].(stack := [Admitted(d)]))
  {
    var t := s.threads[i];
    schedule := Moves(c, s, i, d, h, [t, t.(stack := [Entry(d)]), t.(stack := [Admitted(d)])]);
  }

  lemma Cleans(c: Config, s: System, i: nat, d: Name, h: History, p: Program) returns (schedule: seq<Action>)
    requires i < |s.threads| && s.threads[i].stack == [Entered(d, p)] && !s.shutdown
    ensures Alone(schedule, i, d, h)
    ensures AdvanceAll(c, s, schedule) == With(s, i, s.threads[i].(stack := [At(d, p, false)]))
  {
    var t := s.threads[i];
    schedule := Moves(c, s, i, d, h, [t, t.(stack := [Cleaning(d, p)]), t.(stack := [At(d, p, false)])]);
  }

  lemma BeginsAlone(c: Config, s: System, i: nat, d: Name, h: History) returns (s': System)
    requires i < |s.threads| && d in c.defs && d in s.state && s.state[d] in {Stopped, Restarting} && d !in s.masked
    ensures s' == Advance(c, With(s, i, s.threads[i].(stack := [Admitted(d)])), Yes(i, d, h))
    ensures s' == With(s, i, s.threads[i].(stack := [Entered(d, ProgramOf(c, h, d))])).(
                    state := if s.state[d] == Restarting then s.state else s.state[d := Starting])
  {
    hide ProgramOf;
    var s2 := With(s, i, s.threads[i].(stack := [Admitted(d)]));
    s' := Advance(c, s2, Yes(i, d, h));
    assert [Admitted(d)][..0] + [Entered(d, ProgramOf(c, h, d))] == [Entered(d, ProgramOf(c, h, d))];
    assert forall t :: With(s2, i, t) == With(s, i, t);
  }

  // ---- what ends a call

  /** What becomes of one step of an activation of d that runs alone in its goroutine. */
  predicate Becomes(s: System, s': System, i: nat, f: Frame, launched: nat, state: Option<DaemonState>)
    requires i < |s.threads|
  {
    var t := s.threads[i];
    s' == s.(threads := s.threads[i := Thread([f], t.launched + launched, t.raised)],
             state := if state.None? || f.d !in s.state then s.state else s.state[f.d := state.value])
  }

  /** A check that finds the flag set, or the unit being stopped, ends the call before the command it stands before. */
  lemma CheckEnds(c: Config, s: System, i: nat, d: Name, p: Program, choice: Choice)
    requires i < |s.threads| && s.threads[i].stack == [At(d, p, false)]
    requires p != [] && !p[0].Prepare? && !p[0].AttachLog? && !p[0].Finish?
    ensures Becomes(s, Advance(c, s, Move(i, choice)), i,
                    if s.shutdown || choice.abort then Done(d, false) else At(d, p, true), 0, None)
  {
    var t := s.threads[i];
    assert forall f :: t.stack[..0] + [f] == [f];
  }

  /** A call that finds the flag set is refused at the door; otherwise it goes on to the lock. */
  lemma FlagRefuses(c: Config, s: System, i: nat, d: Name, choice: Choice)
    requires i < |s.threads| && s.threads[i].stack == [Entry(d)]
    ensures Becomes(s, Advance(c, s, Move(i, choice)), i, if s.shutdown then Done(d, false) else Admitted(d), 0, None)
  {
    var t := s.threads[i];
    assert forall f :: t.stack[..0] + [f] == [f];
  }

  /** No step of any goroutine takes a unit that is being stopped to Starting or Running. */
  lemma NeverFromStopping(c: Config, s: System, a: Action, d: Name)
    requires d in s.state && s.state[d] == Stopping
    ensures var s' := Advance(c, s, a); d in s'.state && s'.state[d] !in {Starting, DaemonState.Running}
  {
    hide ProgramOf;
  }

  /** The world says no. Environment files that cannot be resolved end the call and leave the unit's state; a log that
      does not open or a conflict that does not stop ends it with the unit Stopped; a condition not met does so too, but
      as a success; a command whose line starts with a dash changes nothing, and any other one ends the call. */
  lemma RefusalEnds(c: Config, s: System, i: nat, d: Name, p: Program, choice: Choice)
    requires i < |s.threads| && p != [] && !p[0].Depend? && !p[0].Finish? && !choice.ok
    requires s.threads[i].stack == [At(d, p, !p[0].Prepare? && !p[0].AttachLog?)]
    ensures var s' := Advance(c, s, Move(i, choice));
            match p[0]
            case Prepare => Becomes(s, s', i, Done(d, false), 0, None)
            case AttachLog => Becomes(s, s', i, Done(d, false), 0, Some(Stopped))
            case Conflict(_) => Becomes(s, s', i, Done(d, false), 0, Some(Stopped))
            case Condition(_) => Becomes(s, s', i, Done(d, true), 1, Some(Stopped))
            case Run(_, line) =>
              if line != "" && line[0] == '-' then Becomes(s, s', i, At(d, p[1..], false), 1, None)
              else Becomes(s, s', i, Done(d, false), 1, Some(Stopped))
            case _ => true
  {
    var t := s.threads[i];
    assert forall f :: t.stack[..0] + [f] == [f];
  }

  /** A dependency that is masked, and not on its way up or down, refuses to start. */
  predicate Refuses(c: Config, s: System, r: Name) {
    r in s.state && r in c.defs && r in s.masked && s.state[r] !in {Starting, Stopping}
  }

  /** Such a dependency, under Requires or BindsTo, ends the call and nothing of the program is run from there on;
      under Wants or Upholds it does not matter. */
  lemma RefusedDependency(c: Config, s: System, i: nat, d: Name, h: History, p: Program) returns (schedule: seq<Action>)
    requires i < |s.threads| && s.threads[i].stack == [At(d, p, false)] && !s.shutdown
    requires p != [] && p[0].Depend? && Refuses(c, s, p[0].dep)
    ensures Alone(schedule, i, d, h)
    ensures AdvanceAll(c, s, schedule) ==
            With(s, i, s.threads[i].(stack := if p[0].hard then [] else [At(d, p[1..], false)]))
  {
    var t, r := s.threads[i], p[0].dep;
    var t1 := t.(stack := [At(d, p, true)]);
    var t2 := t.(stack := [At(d, p, true), Entry(r)]);
    var t3 := t.(stack := [At(d, p, true), Admitted(r)]);
    var t4 := t.(stack := [At(d, p, true), Done(r, false)]);
    RefusedCall(c, s, i, d, h, p, t);
    if p[0].hard {
      schedule := Moves(c, s, i, d, h, [t, t1, t2, t3, t4, t.(stack := [Done(d, false)]), t.(stack := [])]);
    } else {
      schedule := Moves(c, s, i, d, h, [t, t1, t2, t3, t4, t.(stack := [At(d, p[1..], false)])]);
    }
  }

  lemma RefusedCall(c: Config, s: System, i: nat, d: Name, h: History, p: Program, t: Thread)
    requires i < |s.threads| && !s.shutdown && p != [] && p[0].Depend? && Refuses(c, s, p[0].dep)
    ensures var r, yes := p[0].dep, Choice(d, h, false, true);
            var t1 := t.(stack := [At(d, p, true)]);
            var t2 := t.(stack := [At(d, p, true), Entry(r)]);
            var t3 := t.(stack := [At(d, p, true), Admitted(r)]);
            var t4 := t.(stack := [At(d, p, true), Done(r, false)]);
            var on := t.(stack := [if p[0].hard then Done(d, false) else At(d, p[1..], false)]);
            && MoveThread(c, With(s, i, t1), t1, yes) == Effect(t2, None)
            && MoveThread(c, With(s, i, t2), t2, yes) == Effect(t3, None)
            && MoveThread(c, With(s, i, t3), t3, yes) == Effect(t4, None)
            && MoveThread(c, With(s, i, t4), t4, yes) == Effect(on, None)
  {
    hide ProgramOf;
  }

  // ---- masked units, and one start at a time

  /** An activation for d that has been let in. */
  predicate LetIn(f: Frame, d: Name) {
    f.d == d && (f.Entered? || f.Cleaning? || f.At?)
  }

  ghost predicate Out(s: System, d: Name) {
    && (d in s.state ==> s.state[d] != Starting && s.state[d] != DaemonState.Running)
    && forall i :: 0 <= i < |s.threads| ==> NotIn(s.threads[i], d)
  }

  predicate NotIn(t: Thread, d: Name) {
    forall k :: 0 <= k < |t.stack| ==> !LetIn(t.stack[k], d)
  }

  /** What one move does to the activations of d that are let in: it lets in none but a unit that is down and not
      masked, and when it writes d's state otherwise, its own activation of d is over. */
  predicate MovesIn(s: System, t: Thread, e: Effect, d: Name) {
    && (forall k :: 0 <= k < |e.thread.stack| && LetIn(e.thread.stack[k], d) ==>
          (k < |t.stack| && LetIn(t.stack[k], d)) ||
          (k == |t.stack| - 1 == |e.thread.stack| - 1 && t.stack[k] == Admitted(d) && LetsIn(s, e, d)))
    && (e.write.Some? && Target(t) == d ==>
          t.stack != [] && if Top(t) == Admitted(d) then LetsIn(s, e, d) && e.write.value == Starting else
          LetIn(Top(t), d) && e.write.value in {Stopped, DaemonState.Running} &&
          |e.thread.stack| == |t.stack| && e.thread.stack[|t.stack| - 1].Done?)
  }

  predicate LetsIn(s: System, e: Effect, d: Name) {
    && d in s.state && s.state[d] in {Stopped, Restarting} && d !in s.masked
    && (s.state[d] == Stopped ==> e.write == Some(Starting))
  }

  lemma BelowSame(s: System, t: Thread, e: Effect, d: Name)
    requires t.stack != [] && |e.thread.stack| == |t.stack|
    requires e.thread.stack[..|t.stack| - 1] == t.stack[..|t.stack| - 1]
    ensures forall k :: 0 <= k < |t.stack| - 1 ==> e.thread.stack[k] == t.stack[k]
  {
    forall k | 0 <= k < |t.stack| - 1
      ensures e.thread.stack[k] == t.stack[k]
    {
      assert e.thread.stack[..|t.stack| - 1][k] == t.stack[..|t.stack| - 1][k];
    }
  }

  lemma RunInstrIn(s: System, t: Thread, f: Frame, choice: Choice, d: Name)
    requires t.stack != [] && f == Top(t) && f.At? && f.p != []
    ensures MovesIn(s, t, RunInstr(s, t, f, choice), d)
  {
    var e := RunInstr(s, t, f, choice);
    if !f.p[0].Depend? {
      BelowSame(s, t, e, d);
    }
  }

  lemma ReturnIn(s: System, t: Thread, f: Frame, d: Name)
    requires t.stack != [] && f == Top(t) && f.Done?
    ensures MovesIn(s, t, Effect(Shutdown.Return(t, f), None), d)
  {
    var e := Effect(Shutdown.Return(t, f), None);
    if |t.stack| > 1 {
      var below := t.stack[..|t.stack| - 1];
      assert below[|below| - 1] == t.stack[|t.stack| - 2];
    }
  }

  lemma BeginIn(c: Config, s: System, t: Thread, x: Name, h: History, d: Name)
    requires t.stack != [] && Top(t) == Admitted(x)
    ensures MovesIn(s, t, Shutdown.Begin(c, s, t, x, h), d)
  {
    hide ProgramOf;
    BelowSame(s, t, Shutdown.Begin(c, s, t, x, h), d);
  }

  lemma MoveIn(c: Config, s: System, t: Thread, choice: Choice, d: Name)
    ensures MovesIn(s, t, MoveThread(c, s, t, choice), d)
  {
    hide RunInstr, Shutdown.Return, Shutdown.Begin;
    if t.stack != [] {
      var f := Top(t);
      var e := MoveThread(c, s, t, choice);
      if f.Admitted? {
        BeginIn(c, s, t, f.d, choice.h, d);
      } else if f.Done? {
        ReturnIn(s, t, f, d);
      } else if f.At? && f.p != [] && !(f.p[0].Guarded() && !f.armed) {
        RunInstrIn(s, t, f, choice, d);
      } else {
        BelowSame(s, t, e, d);
      }
    }
  }

  /** Whatever is scheduled, before the flag or after it: a masked unit that is down, with no start let in, stays down
      and lets none in. */
  lemma {:induction false} MaskedStaysDown(c: Config, s: System, schedule: seq<Action>, d: Name)
    requires d in s.masked && Out(s, d)
    ensures Out(AdvanceAll(c, s, schedule), d)
    decreases |schedule|
  {
    if schedule != [] {
      MaskedStep(c, s, schedule[0], d);
      MaskedStaysDown(c, Advance(c, s, schedule[0]), schedule[1..], d);
    }
  }

  lemma MaskedStep(c: Config, s: System, a: Action, d: Name)
    requires d in s.masked && Out(s, d)
    ensures Out(Advance(c, s, a), d) && Advance(c, s, a).masked == s.masked
  {
    hide MoveThread;
    if a.Move? && a.t < |s.threads| {
      MoveIn(c, s, s.threads[a.t], a.choice, d);
      assert NotIn(s.threads[a.t], d);
    }
  }

  predicate In(s: System, i: int, k: int, d: Name) {
    0 <= i < |s.threads| && 0 <= k < |s.threads[i].stack| && LetIn(s.threads[i].stack[k], d)
  }

  /** At most one activation of d is let in, and while it is there d is Starting. */
  ghost predicate Single(s: System, d: Name) {
    && (forall i, k, j, m :: In(s, i, k, d) && In(s, j, m, d) ==> i == j && k == m)
    && (forall i, k :: In(s, i, k, d) ==> d in s.state && s.state[d] == Starting)
    && (d in s.state ==> s.state[d] != Restarting)
  }

  /** In every interleaving, as long as nobody stops or restarts it, a unit is run by at most one of all the calls that
      ask for it. */
  lemma {:induction false} OneStartAtATime(c: Config, s: System, schedule: seq<Action>, d: Name)
    requires Single(s, d) && forall a :: a in schedule ==> !(a.Lower? && a.x == d)
    ensures Single(AdvanceAll(c, s, schedule), d)
    decreases |schedule|
  {
    if schedule != [] {
      SingleStep(c, s, schedule[0], d);
      OneStartAtATime(c, Advance(c, s, schedule[0]), schedule[1..], d);
    }
  }

  lemma SingleStep(c: Config, s: System, a: Action, d: Name)
    requires Single(s, d) && !(a.Lower? && a.x == d)
    ensures Single(Advance(c, s, a), d)
  {
    hide MoveThread;
    if a.Move? && a.t < |s.threads| {
      var t := s.threads[a.t];
      var e := MoveThread(c, s, t, a.choice);
      MoveIn(c, s, t, a.choice, d);
      var s' := Advance(c, s, a);
      var top := |t.stack| - 1;
      if t.stack != [] && LetIn(Top(t), d) {
        assert In(s, a.t, top, d);
      }
      forall i, k | In(s', i, k, d)
        ensures In(s, i, k, d) || (i == a.t && k == top && t.stack != [] && Top(t) == Admitted(d) && LetsIn(s, e, d))
      {
      }
    } else {
      assert forall i, k :: In(Advance(c, s, a), i, k, d) <==> In(s, i, k, d);
    }
  }
}
