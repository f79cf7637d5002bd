/** The units as the objects they are: each daemon updates its own fields and calls the others, and every
    method is proved to do to the heap what the engine's functions do to its snapshot. */
module DaemonObjects {
  import opened Graph
  import opened Engine
  import EngineSettled
  import EngineStopAll
  import M = EngineMonitor

  class Daemons {
    const env: Config
    var list: map<Name, Daemon>
    var shutdown: bool
    var trace: History

    ghost predicate Valid()
      reads this
    {
      && env.Valid()
      && list.Keys == env.defs.Keys
      && forall n :: n in list ==> list[n].name == n && list[n].parent == this && list[n].def == env.defs[n]
    }

    function Running(): set<Name>
      reads this, list.Values
    {
      set n | n in list && list[n].state == DaemonState.Running
    }

    ghost function Units(): map<Name, Unit>
      reads this`list, list.Values
    {
      map n | n in list :: list[n].Record()
    }

    ghost function Masks(): set<Name>
      reads this`list, list.Values`isMasked
    {
      set n | n in list && list[n].isMasked
    }

    ghost function Snapshot(): World
      reads this, list.Values
    {
      World(Units(), Masks(), shutdown, trace)
    }

    /** IsShuttingDown. */
    predicate IsShuttingDown()
      reads this
    {
      shutdown
    }

    /** The loop of `LoadAndStart` over the wanted units; one that is not loaded is a nil pointer. */
    method StartWanted(wanted: seq<Name>)
      requires Valid()
      modifies this`trace, list.Values
      ensures Valid() && Snapshot() == EngineSettled.StartEach(env, old(Snapshot()), wanted)
    {
      hide Engine.Start;
      ghost var w0 := Snapshot();
      assert wanted[0..] == wanted;
      for i := 0 to |wanted|
        invariant Valid()
        invariant EngineSettled.StartEach(env, Snapshot(), wanted[i..]) == EngineSettled.StartEach(env, w0, wanted)
      {
        assert wanted[i..][1..] == wanted[i + 1..];
        StartIfLoaded(wanted[i]);
      }
    }

    method StartIfLoaded(n: Name)
      requires Valid()
      modifies this`trace, list.Values
      ensures Valid() && Snapshot() == Engine.Start(env, old(Snapshot()), n, true).w
    {
      if n in list {
        var _ := list[n].Start(true);
      }
    }

    method SetShutdown()
      requires Valid()
      modifies this`shutdown
      ensures Valid() && Snapshot() == old(Snapshot()).(shutdown := true)
    {
      shutdown := true;
    }

    /** `StopAll`; the order is the one in which the list happens to iterate. */
    method StopAll() returns (ghost order: seq<Name>)
      requires Valid()
      modifies this`shutdown, this`trace, list.Values
      ensures IsOrder(order, list.Keys)
      ensures Snapshot() == EngineStopAll.StopAll(env, old(Snapshot()), order)
    {
      SetShutdown();
      order := StopList();
    }

    method StopList() returns (ghost order: seq<Name>)
      requires Valid()
      modifies this`trace, list.Values
      ensures IsOrder(order, list.Keys)
      ensures Snapshot() == EngineStopAll.StopEach(env, old(Snapshot()), order)
    {
      ghost var w0 := Snapshot();
      order := [];
      var left := list.Keys;
      while left != {}
        invariant OnTheWay(w0, order, left)
        decreases |left|
      {
        var d :| d in left;
        StopNext(d, w0, order, left);
        left, order := left - {d}, order + [d];
      }
    }

    /** The units in order have been stopped, and those left are still to come. */
    ghost predicate OnTheWay(w0: World, order: seq<Name>, left: set<Name>)
      reads this, list.Values
    {
      && Valid() && left <= list.Keys && Walked(order, left, list.Keys)
      && w0.units.Keys == env.defs.Keys && (forall x :: x in order ==> x in w0.units)
      && Snapshot() == EngineStopAll.StopEach(env, w0, order)
    }

    method StopNext(d: Name, ghost w0: World, ghost order: seq<Name>, ghost left: set<Name>)
      requires OnTheWay(w0, order, left) && d in left
      modifies this`trace, list.Values
      ensures OnTheWay(w0, order + [d], left - {d}) && |left - {d}| < |left|
    {
      hide EngineStopAll.StopEach, EngineStopAll.StopUp;
      StopIfUp(list[d]);
      EngineStopAll.StopEachSnoc(env, w0, order, d);
      WalkOn(order, left, list.Keys, d);
    }

    method StopIfUp(item: Daemon)
      requires Valid() && item.Loaded() && item.parent == this
      modifies this`trace, list.Values
      ensures Valid() && Snapshot() == EngineStopAll.StopUp(env, old(Snapshot()), item.name)
    {
      if item.state != Stopped && item.state != Stopping {
        var _ := item.Stop(true);
      }
    }

    /** The list as a first reload leaves it: one object for each definition, Stopped; `masked` are the units
        whose file is masked, `remaining` those whose file says that they remain after exit. */
    constructor (env: Config, masked: set<Name>, remaining: set<Name>)
      requires env.Valid()
      ensures Valid() && this.env == env && fresh(list.Values)
      ensures Snapshot() == InitialWorld(env, masked, remaining)
    {
      this.env := env;
      list := map[];
      shutdown := false;
      trace := [];
      new;
      var left := env.defs.Keys;
      while left != {}
        invariant Listed(env.defs.Keys - left, masked, remaining)
        invariant left <= env.defs.Keys && !shutdown && trace == [] && fresh(list.Values) && this.env == env
        decreases left
      {
        var n :| n in left;
        var d := new Daemon(n, this, env.defs[n], n in masked, n in remaining);
        Enlist(d, masked, remaining);
        left := left - {n};
      }
      ListedIsInitial(masked, remaining);
    }

    /** The objects listed so far are those of the names in done, each as it starts out. */
    ghost predicate Listed(done: set<Name>, masked: set<Name>, remaining: set<Name>)
      reads this, list.Values
    {
      && done <= env.defs.Keys && list.Keys == done
      && forall n :: n in list ==> Enrolled(n, list[n], masked, remaining)
    }

    ghost predicate Enrolled(n: Name, d: Daemon, masked: set<Name>, remaining: set<Name>)
      reads this, d
    {
      && d.name == n && d.parent == this && n in env.defs && d.def == env.defs[n]
      && d.Record() == Unit(Stopped, false, false, n in remaining) && d.isMasked == (n in masked)
    }

    method Enlist(d: Daemon, masked: set<Name>, remaining: set<Name>)
      requires Listed(list.Keys, masked, remaining) && Enrolled(d.name, d, masked, remaining)
      modifies this`list
      ensures list == old(list)[d.name := d] && Listed(list.Keys, masked, remaining)
    {
      list := list[d.name := d];
    }

    lemma ListedIsInitial(masked: set<Name>, remaining: set<Name>)
      requires env.Valid() && Listed(env.defs.Keys, masked, remaining) && !shutdown && trace == []
      ensures Valid() && Snapshot() == InitialWorld(env, masked, remaining)
    {
      assert Units() == InitialWorld(env, masked, remaining).units;
      assert Masks() == env.defs.Keys * masked;
    }
  }

  class Daemon {
    const name: Name
    const parent: Daemons
    const def: Def
    var state: DaemonState
    var stateError: bool
    var isManual: bool
    var isMasked: bool
    var remainAfterExit: bool

    constructor (name: Name, parent: Daemons, def: Def, isMasked: bool, remain: bool)
      ensures this.name == name && this.parent == parent && this.def == def && this.isMasked == isMasked
      ensures Record() == Unit(Stopped, false, false, remain)
    {
      this.name, this.parent, this.def, this.isMasked := name, parent, def, isMasked;
      state, stateError, isManual, remainAfterExit := Stopped, false, false, remain;
    }

    ghost function Record(): Unit
      reads this
    {
      Unit(state, stateError, isManual, remainAfterExit)
    }

    ghost predicate Loaded()
      reads this, parent
    {
      parent.Valid() && name in parent.list && parent.list[name] == this
    }

    /** What the engine's functions ask of a snapshot. */
    lemma SnapshotFits()
      requires Loaded()
      ensures parent.Snapshot().units.Keys == parent.env.defs.Keys && parent.env.Valid()
      ensures name in parent.Snapshot().units && def == parent.env.defs[name]
    {
    }

    /** Writes the unit's record. */
    method Store(u: Unit)
      requires Loaded()
      modifies this`state, this`stateError, this`isManual, this`remainAfterExit
      ensures Loaded()
      ensures parent.Snapshot() == old(parent.Snapshot()).Update(name, u) && Record() == u
    {
      StoreUnit(u);
      assert parent.Masks() == old(parent.Masks());
    }

    method StoreUnit(u: Unit)
      requires Loaded()
      modifies this`state, this`stateError, this`isManual, this`remainAfterExit
      ensures Loaded()
      ensures Record() == u && parent.Units() == old(parent.Units())[name := u]
    {
      ghost var before := parent.Units();
      SetFields(u);
      SameMap(parent.Units(), before[name := u]);
    }

    method SetFields(u: Unit)
      requires Loaded()
      modifies this`state, this`stateError, this`isManual, this`remainAfterExit
      ensures Loaded()
      ensures Record() == u
      ensures forall n :: n in parent.list && n != name ==> parent.list[n].Record() == old(parent.list[n].Record())
    {
      state, stateError, isManual, remainAfterExit := u.state, u.failed, u.manual, u.remain;
      forall n | n in parent.list && n != name
        ensures parent.list[n].Record() == old(parent.list[n].Record())
      {
        assert parent.list[n] != this;
      }
    }

    method Write(s: DaemonState, failed: bool)
      requires Loaded()
      modifies this`state, this`stateError, this`isManual, this`remainAfterExit
      ensures Loaded()
      ensures Record() == old(Record()).(state := s, failed := failed)
      ensures parent.Snapshot() ==
              old(parent.Snapshot()).Update(name, old(Record()).(state := s, failed := failed))
    {
      Store(Unit(s, failed, isManual, remainAfterExit));
    }

    /** How a start gives up. */
    method Fail()
      requires Loaded()
      modifies this`state, this`stateError, this`isManual, this`remainAfterExit
      ensures Loaded()
      ensures parent.Snapshot() == old(parent.Snapshot()).Fail(name)
    {
      Write(Stopped, true);
    }

    method Note(e: Event)
      requires Loaded()
      modifies parent`trace
      ensures Loaded()
      ensures parent.Snapshot() == old(parent.Snapshot()).Note(e)
    {
      parent.trace := parent.trace + [e];
    }

    method Perform(act: Act) returns (ok: bool)
      requires Loaded()
      modifies parent`trace
      ensures Loaded()
      ensures Outcome(parent.Snapshot(), ok) == Engine.Perform(parent.env, old(parent.Snapshot()), name, act)
    {
      assert parent.Running() == parent.Snapshot().RunningUnits();
      ok := parent.env.outcome(parent.trace, name, act);
      Note(Did(name, act, parent.Running()));
    }

    /** startCheckAbortState. */
    method CheckAbort() returns (aborted: bool)
      requires Loaded()
      ensures aborted == Aborted(parent.Snapshot(), name)
    {
      aborted := parent.IsShuttingDown() || state == Stopping;
    }

    method StopLines(phase: Phase, lines: seq<string>)
      requires Loaded()
      modifies parent`trace, this
      ensures Loaded()
      ensures parent.Snapshot() == RunStopLines(parent.env, old(parent.Snapshot()), name, phase, lines)
    {
      ghost var w0 := parent.Snapshot();
      assert lines[0..] == lines;
      for i := 0 to |lines|
        invariant RunStopLines(parent.env, parent.Snapshot(), name, phase, lines[i..]) ==
                  RunStopLines(parent.env, w0, name, phase, lines)
      {
        assert lines[i..][1..] == lines[i + 1..];
        var ok := Perform(Command(phase, lines[i]));
        if !ok {
          Write(state, true);
        }
      }
    }

    /** The three lists of stop commands, then the wait for the processes. */
    method StopAndWait()
      requires Loaded()
      modifies parent`trace, this
      ensures Loaded()
      ensures parent.Snapshot() == RunStop(parent.env, old(parent.Snapshot()), name)
    {
      StopLines(ExecStopPre, def.stopPre);
      StopLines(ExecStop, def.stop);
      StopLines(ExecStopPost, def.stopPost);
      var gone := Perform(AwaitExit);
      if !gone {
        Write(state, true);
      }
    }

    /** `stop`. */
    method Stop(announce: bool) returns (ok: bool)
      requires Loaded()
      modifies parent`trace, this
      ensures Loaded()
      ensures Outcome(parent.Snapshot(), ok) == Engine.Stop(parent.env, old(parent.Snapshot()), name, announce)
    {
      if isMasked {
        return false;
      }
      if state != Restarting || announce {
        Write(Stopping, stateError);
      }
      var logged := Perform(OpenLog);
      if !logged {
        Write(state, true);
        return false;
      }
      StopAndWait();
      Write(Stopped, stateError);
      return true;
    }

    // ---- the instructions of `start`: each either ends the start (done, with result ok) or lets it go on

    method DoCondition(line: string) returns (done: bool, ok: bool)
      requires Loaded()
      modifies parent`trace, this
      ensures Loaded()
      ensures Step(parent.env, old(parent.Snapshot()), name, Condition(line)) == Went(parent.Snapshot(), done, ok)
    {
      var met := Perform(Command(ExecCondition, line));
      if met {
        return false, true;
      }
      Write(Stopped, false);
      return true, true;
    }

    method StopOther(other: Daemon) returns (ok: bool)
      requires Loaded() && other.Loaded() && other.parent == parent
      modifies parent`trace, other
      ensures Loaded()
      ensures Outcome(parent.Snapshot(), ok) == Engine.Stop(parent.env, old(parent.Snapshot()), other.name, true)
    {
      ok := other.Stop(true);
    }

    method DoConflict(other: Name) returns (done: bool, ok: bool)
      requires Loaded()
      modifies parent`trace, parent.list.Values
      ensures Loaded()
      ensures Step(parent.env, old(parent.Snapshot()), name, Conflict(other)) == Went(parent.Snapshot(), done, ok)
    {
      hide Step, Engine.Stop;
      ConflictStep(parent.env, parent.Snapshot(), name, other);
      if other in parent.list {
        var stopped := StopOther(parent.list[other]);
        if !stopped {
          Fail();
          return true, false;
        }
      }
      return false, true;
    }

    method DoRun(phase: Phase, line: string) returns (done: bool, ok: bool)
      requires Loaded()
      modifies parent`trace, this
      ensures Loaded()
      ensures Step(parent.env, old(parent.Snapshot()), name, Run(phase, line)) == Went(parent.Snapshot(), done, ok)
    {
      var succeeded := Perform(Command(phase, Bare(line)));
      if !succeeded && Fatal(line) {
        var _ := Stop(true);
        Write(Stopped, true);
        return true, false;
      }
      return false, true;
    }

    method StartOther(other: Daemon) returns (ok: bool)
      requires Loaded() && other.Loaded() && other.parent == parent
      modifies parent`trace, parent.list.Values
      ensures Loaded()
      ensures Outcome(parent.Snapshot(), ok) == Engine.Start(parent.env, old(parent.Snapshot()), other.name, false)
      decreases Rank(parent.env.Edges(), other.name), 2, 1
    {
      ok := other.Start(false);
    }

    method DoDepend(dep: Name, hard: bool) returns (done: bool, ok: bool)
      requires Loaded() && Legal(parent.env, name, [Depend(dep, hard)])
      modifies parent`trace, parent.list.Values
      ensures Loaded()
      ensures Step(parent.env, old(parent.Snapshot()), name, Depend(dep, hard)) == Went(parent.Snapshot(), done, ok)
      decreases Rank(parent.env.Edges(), name), 0, 0
    {
      DependStep(parent.env, parent.Snapshot(), name, dep, hard);
      if dep in parent.list {
        assert Edge(parent.env.Edges(), name, [Depend(dep, hard)][0].dep);
        RankDecreases(parent.env.Edges(), name, dep);
        hide Step, Engine.Start, Rank, Legal;
        var started := StartOther(parent.list[dep]);
        if !started && hard {
          Fail();
          return true, false;
        }
      }
      return false, true;
    }

    method DoPrepare() returns (done: bool, ok: bool)
      requires Loaded()
      modifies parent`trace, this
      ensures Loaded()
      ensures Step(parent.env, old(parent.Snapshot()), name, Prepare) == Went(parent.Snapshot(), done, ok)
      ensures !done ==> ok
    {
      var resolved := Perform(ResolveEnvironment);
      return !resolved, resolved;
    }

    method DoAttachLog() returns (done: bool, ok: bool)
      requires Loaded()
      modifies parent`trace, this
      ensures Loaded()
      ensures Step(parent.env, old(parent.Snapshot()), name, AttachLog) == Went(parent.Snapshot(), done, ok)
    {
      var logged := Perform(OpenLog);
      if !logged {
        Write(Stopped, true);
      }
      return !logged, false;
    }

    // ---- the same after the abort check that precedes each of them

    method StepCondition(line: string, ghost p: Program) returns (done: bool, ok: bool)
      requires Loaded() && p != [] && p[0] == Condition(line) && Legal(parent.env, name, p)
      modifies parent`trace, this
      ensures Loaded()
      ensures Leads(parent.env, old(parent.Snapshot()), name, p, parent.Snapshot(), done, ok, p[1..])
    {
      hide Exec, Step, Leads;
      ghost var w := parent.Snapshot();
      var aborted := CheckAbort();
      if aborted {
        LeadsAborted(parent.env, w, name, p);
        return true, false;
      }
      done, ok := DoCondition(line);
      LeadsByStep(parent.env, w, name, p, parent.Snapshot(), done, ok);
    }

    method StepConflict(other: Name, ghost p: Program) returns (done: bool, ok: bool)
      requires Loaded() && p != [] && p[0] == Conflict(other) && Legal(parent.env, name, p)
      modifies parent`trace, parent.list.Values
      ensures Loaded()
      ensures Leads(parent.env, old(parent.Snapshot()), name, p, parent.Snapshot(), done, ok, p[1..])
    {
      hide Exec, Step, Leads;
      ghost var w := parent.Snapshot();
      var aborted := CheckAbort();
      if aborted {
        LeadsAborted(parent.env, w, name, p);
        return true, false;
      }
      done, ok := DoConflict(other);
      LeadsByStep(parent.env, w, name, p, parent.Snapshot(), done, ok);
    }

    method StepRun(phase: Phase, line: string, ghost p: Program) returns (done: bool, ok: bool)
      requires Loaded() && p != [] && p[0] == Run(phase, line) && Legal(parent.env, name, p)
      modifies parent`trace, this
      ensures Loaded()
      ensures Leads(parent.env, old(parent.Snapshot()), name, p, parent.Snapshot(), done, ok, p[1..])
    {
      hide Exec, Step, Leads;
      ghost var w := parent.Snapshot();
      var aborted := CheckAbort();
      if aborted {
        LeadsAborted(parent.env, w, name, p);
        return true, false;
      }
      done, ok := DoRun(phase, line);
      LeadsByStep(parent.env, w, name, p, parent.Snapshot(), done, ok);
    }

    method StepDepend(dep: Name, hard: bool, ghost p: Program) returns (done: bool, ok: bool)
      requires Loaded() && p != [] && p[0] == Depend(dep, hard) && Legal(parent.env, name, p)
      modifies parent`trace, parent.list.Values
      ensures Loaded()
      ensures Leads(parent.env, old(parent.Snapshot()), name, p, parent.Snapshot(), done, ok, p[1..])
      decreases Rank(parent.env.Edges(), name), 0, 1
    {
      SnapshotFits();
      hide Loaded, Daemons.Valid, Exec, Step, Leads;
      ghost var w := parent.Snapshot();
      var aborted := CheckAbort();
      if aborted {
        LeadsAborted(parent.env, w, name, p);
        return true, false;
      }
      done, ok := DoDepend(dep, hard);
      SnapshotFits();
      LeadsByStep(parent.env, w, name, p, parent.Snapshot(), done, ok);
    }

    // ---- the loops of `start`

    method CheckConditions(ghost rest: Program) returns (done: bool, ok: bool)
      requires Loaded() && Legal(parent.env, name, rest)
      modifies parent`trace, this
      ensures Loaded()
      ensures Leads(parent.env, old(parent.Snapshot()), name, Conditions(def.conditions) + rest,
                    parent.Snapshot(), done, ok, rest)
    {
      assert parent.env.Valid() && name in parent.env.defs && def == parent.env.defs[name];
      hide Loaded, Daemons.Valid;
      ghost var w0 := parent.Snapshot();
      ghost var p := Conditions(def.conditions) + rest;
      LegalPrepend(parent.env, name, Conditions(def.conditions), rest);
      done, ok := false, true;
      for i := 0 to |def.conditions|
        invariant Loaded() && Leads(parent.env, w0, name, p, parent.Snapshot(), false, true, p[i..])
      {
        ghost var w1 := parent.Snapshot();
        RestAt(parent.env, name, p, i);
        assert p[i] == Condition(def.conditions[i]);
        done, ok := StepCondition(def.conditions[i], p[i..]);
        LeadsOn(parent.env, w0, name, p, w1, i, parent.Snapshot(), done, ok);
        if done { return; }
      }
      assert p[|def.conditions|..] == rest;
      done, ok := false, true;
    }

    method StopConflicts(names: seq<Name>, ghost rest: Program) returns (done: bool, ok: bool)
      requires Loaded() && Legal(parent.env, name, rest)
      modifies parent`trace, parent.list.Values
      ensures Loaded()
      ensures Leads(parent.env, old(parent.Snapshot()), name, ConflictsWith(names) + rest,
                    parent.Snapshot(), done, ok, rest)
    {
      assert parent.env.Valid() && name in parent.env.defs && def == parent.env.defs[name];
      hide Loaded, Daemons.Valid;
      ghost var w0 := parent.Snapshot();
      ghost var p := ConflictsWith(names) + rest;
      LegalPrepend(parent.env, name, ConflictsWith(names), rest);
      done, ok := false, true;
      for i := 0 to |names|
        invariant Loaded() && Leads(parent.env, w0, name, p, parent.Snapshot(), false, true, p[i..])
      {
        ghost var w1 := parent.Snapshot();
        RestAt(parent.env, name, p, i);
        assert p[i] == Conflict(names[i]);
        done, ok := StepConflict(names[i], p[i..]);
        LeadsOn(parent.env, w0, name, p, w1, i, parent.Snapshot(), done, ok);
        if done { return; }
      }
      assert p[|names|..] == rest;
      done, ok := false, true;
    }

    method RunCommands(phase: Phase, lines: seq<string>, ghost rest: Program) returns (done: bool, ok: bool)
      requires Loaded() && Legal(parent.env, name, rest)
      modifies parent`trace, this
      ensures Loaded()
      ensures Leads(parent.env, old(parent.Snapshot()), name, Runs(phase, lines) + rest,
                    parent.Snapshot(), done, ok, rest)
    {
      assert parent.env.Valid() && name in parent.env.defs && def == parent.env.defs[name];
      hide Loaded, Daemons.Valid;
      ghost var w0 := parent.Snapshot();
      ghost var p := Runs(phase, lines) + rest;
      LegalPrepend(parent.env, name, Runs(phase, lines), rest);
      done, ok := false, true;
      for i := 0 to |lines|
        invariant Loaded() && Leads(parent.env, w0, name, p, parent.Snapshot(), false, true, p[i..])
      {
        ghost var w1 := parent.Snapshot();
        RestAt(parent.env, name, p, i);
        assert p[i] == Run(phase, lines[i]);
        done, ok := StepRun(phase, lines[i], p[i..]);
        LeadsOn(parent.env, w0, name, p, w1, i, parent.Snapshot(), done, ok);
        if done { return; }
      }
      assert p[|lines|..] == rest;
      done, ok := false, true;
    }

    method StartDependencies(names: seq<Name>, hard: bool, ghost rest: Program) returns (done: bool, ok: bool)
      requires Loaded() && Legal(parent.env, name, Depends(names, hard)) && Legal(parent.env, name, rest)
      modifies parent`trace, parent.list.Values
      ensures Loaded()
      ensures Leads(parent.env, old(parent.Snapshot()), name, Depends(names, hard) + rest,
                    parent.Snapshot(), done, ok, rest)
      decreases Rank(parent.env.Edges(), name), 0, 2
    {
      assert parent.env.Valid() && name in parent.env.defs && def == parent.env.defs[name];
      hide Loaded, Daemons.Valid;
      ghost var w0 := parent.Snapshot();
      ghost var p := Depends(names, hard) + rest;
      LegalPrepend(parent.env, name, Depends(names, hard), rest);
      done, ok := false, true;
      for i := 0 to |names|
        invariant Loaded() && Leads(parent.env, w0, name, p, parent.Snapshot(), false, true, p[i..])
      {
        ghost var w1 := parent.Snapshot();
        RestAt(parent.env, name, p, i);
        assert p[i] == Depend(names[i], hard);
        done, ok := StepDepend(names[i], hard, p[i..]);
        LeadsOn(parent.env, w0, name, p, w1, i, parent.Snapshot(), done, ok);
        if done { return; }
      }
      assert p[|names|..] == rest;
      done, ok := false, true;
    }

    /** `start`: the entry checks, then the program. */
    method Start(manual: bool) returns (ok: bool)
      requires Loaded()
      modifies parent`trace, parent.list.Values
      ensures Loaded()
      ensures Outcome(parent.Snapshot(), ok) == Engine.Start(parent.env, old(parent.Snapshot()), name, manual)
      decreases Rank(parent.env.Edges(), name), 2, 0
    {
      Note(Enter(name));
      ok := StartEntered(manual);
      Note(Returned(name, ok));
    }

    method StartEntered(manual: bool) returns (ok: bool)
      requires Loaded()
      modifies parent`trace, parent.list.Values
      ensures Loaded()
      ensures Outcome(parent.Snapshot(), ok) == StartLoaded(parent.env, old(parent.Snapshot()), name, manual)
      decreases Rank(parent.env.Edges(), name), 1, 2
    {
      if parent.IsShuttingDown() {
        return false;
      }
      if state == Starting || state == Stopping {
        return true;
      }
      if isMasked {
        return false;
      }
      var history := parent.trace;
      if state == DaemonState.Running {
        Store(Unit(state, stateError, isManual || manual, remainAfterExit));
        return true;
      }
      ok := StartBody(manual, history);
    }

    method StartBody(manual: bool, history: History) returns (ok: bool)
      requires Loaded()
      modifies parent`trace, parent.list.Values
      ensures Loaded()
      ensures Legal(parent.env, name, ProgramOf(parent.env, history, name))
      ensures Outcome(parent.Snapshot(), ok) ==
              match CleanUp(parent.env, Begin(parent.env, old(parent.Snapshot()), name, manual), name)
              case Return(o) => o
              case Continue(w) => Exec(parent.env, w, name, ProgramOf(parent.env, history, name))
      decreases Rank(parent.env.Edges(), name), 1, 1
    {
      hide Exec, CleanUp, Begin, ProgramOf;
      ProgramLegal(parent.env, history, name);
      BeginStart(manual);
      var proceed, result := CleanUpOldRun();
      if !proceed {
        return result;
      }
      ok := RunProgram(history);
    }

    method BeginStart(manual: bool)
      requires Loaded()
      modifies this
      ensures Loaded()
      ensures parent.Snapshot() == Begin(parent.env, old(parent.Snapshot()), name, manual)
    {
      Store(Unit(if state == Restarting then Restarting else Starting, stateError,
                 isManual || manual, remainAfterExit || def.oneshot));
    }

    method CleanUpOldRun() returns (proceed: bool, ok: bool)
      requires Loaded()
      modifies parent`trace, this
      ensures Loaded()
      ensures CleanUp(parent.env, old(parent.Snapshot()), name) ==
              if proceed then Continue(parent.Snapshot()) else Return(Outcome(parent.Snapshot(), ok))
    {
      hide Engine.Stop;
      var aborted := CheckAbort();
      if aborted {
        return false, false;
      }
      var stopped := Stop(false);
      proceed := ClearOldError(stopped);
      ok := proceed;
    }

    /** The rest of the cleanup, after the stop. */
    method ClearOldError(stopped: bool) returns (proceed: bool)
      requires Loaded()
      modifies this
      ensures Loaded()
      ensures var w := old(parent.Snapshot());
              && proceed == (stopped && !Aborted(w, name))
              && parent.Snapshot() ==
                 if proceed then w.SetFailed(name, false) else if Aborted(w, name) then w else w.Fail(name)
    {
      hide Aborted;
      var aborted := CheckAbort();
      if aborted {
        return false;
      }
      if !stopped {
        Fail();
        return false;
      }
      Blame(false);
      return true;
    }

    method RunProgram(history: History) returns (ok: bool)
      requires Loaded()
      modifies parent`trace, parent.list.Values
      ensures Loaded()
      ensures Legal(parent.env, name, ProgramOf(parent.env, history, name))
      ensures Outcome(parent.Snapshot(), ok) ==
              Exec(parent.env, old(parent.Snapshot()), name, ProgramOf(parent.env, history, name))
      decreases Rank(parent.env.Edges(), name), 1, 0
    {
      ghost var c, w0 := parent.env, parent.Snapshot();
      ghost var deps := DependPart(c, history, name) + (ConflictsWith(c.order(history, name, Conflicts)) + CommandPart(def));
      ProgramParts(c, history, name);
      hide Loaded, Daemons.Valid, Exec, Leads, DependPart, CommandPart, Conditions, ConflictsWith, Legal, ProgramOf;
      var done;
      done, ok := RunPreamble(deps);
      LeadsOut(c, w0, name, ProgramOf(c, history, name), parent.Snapshot(), done, ok, deps);
      if done { return; }
      ok := RunRest(history);
    }

    /** The program from the dependencies on. */
    method RunRest(history: History) returns (ok: bool)
      requires Loaded()
      modifies parent`trace, parent.list.Values
      ensures Loaded()
      ensures var p := DependPart(parent.env, history, name) +
                       (ConflictsWith(parent.env.order(history, name, Conflicts)) + CommandPart(def));
              && Legal(parent.env, name, p)
              && Outcome(parent.Snapshot(), ok) == Exec(parent.env, old(parent.Snapshot()), name, p)
      decreases Rank(parent.env.Edges(), name), 0, 4
    {
      ghost var c, w0 := parent.env, parent.Snapshot();
      ghost var commands := CommandPart(def);
      ghost var conflicts := ConflictsWith(parent.env.order(history, name, Conflicts)) + commands;
      ghost var deps := DependPart(parent.env, history, name) + conflicts;
      ProgramParts(c, history, name);
      hide Loaded, Daemons.Valid, Exec, Leads, DependPart, CommandPart, ConflictsWith, Legal, ProgramOf;
      var done;
      done, ok := StartAllDependencies(history, conflicts);
      ghost var w1 := parent.Snapshot();
      LeadsOut(c, w0, name, deps, w1, done, ok, conflicts);
      if done { return; }
      done, ok := StopConflicts(parent.env.order(history, name, Conflicts), commands);
      LeadsOut(c, w1, name, conflicts, parent.Snapshot(), done, ok, commands);
      if done { return; }
      ok := RunAllCommands();
    }

    /** The program up to the conditions. */
    method RunPreamble(ghost rest: Program) returns (done: bool, ok: bool)
      requires Loaded() && Legal(parent.env, name, Conditions(def.conditions) + rest) && Legal(parent.env, name, rest)
      modifies parent`trace, this
      ensures Loaded()
      ensures Leads(parent.env, old(parent.Snapshot()), name, [Prepare, AttachLog] + (Conditions(def.conditions) + rest),
                    parent.Snapshot(), done, ok, rest)
    {
      ghost var w0 := parent.Snapshot();
      ghost var checks := Conditions(def.conditions) + rest;
      hide Leads, Legal, Conditions;
      done, ok := PrepareAndAttach(checks);
      ghost var w1 := parent.Snapshot();
      if done {
        LeadsDone(parent.env, w0, name, [Prepare, AttachLog] + checks, w1, ok, checks, rest);
        return;
      }
      done, ok := CheckConditions(rest);
      LeadsThrough(parent.env, w0, name, [Prepare, AttachLog] + checks, w1, checks, parent.Snapshot(), done, ok, rest);
    }

    method PrepareAndAttach(ghost rest: Program) returns (done: bool, ok: bool)
      requires Loaded() && Legal(parent.env, name, rest)
      modifies parent`trace, this
      ensures Loaded()
      ensures Leads(parent.env, old(parent.Snapshot()), name, [Prepare, AttachLog] + rest,
                    parent.Snapshot(), done, ok, rest)
    {
      assert parent.env.Valid();
      hide Loaded, Daemons.Valid, Leads, Legal;
      ghost var w0 := parent.Snapshot();
      ghost var p := [Prepare, AttachLog] + rest;
      PreambleLegal(parent.env, name, rest);
      done, ok := StepPrepare(p);
      ghost var w1 := parent.Snapshot();
      if done {
        LeadsDone(parent.env, w0, name, p, w1, ok, p[1..], rest);
        return;
      }
      done, ok := StepAttachLog(p[1..]);
      LeadsOn(parent.env, w0, name, p, w1, 1, parent.Snapshot(), done, ok);
    }

    method StepPrepare(ghost p: Program) returns (done: bool, ok: bool)
      requires Loaded() && p != [] && p[0] == Prepare && Legal(parent.env, name, p)
      modifies parent`trace, this
      ensures Loaded()
      ensures Leads(parent.env, old(parent.Snapshot()), name, p, parent.Snapshot(), done, ok, p[1..])
      ensures !done ==> ok
    {
      hide Exec, Step, Leads;
      ghost var w := parent.Snapshot();
      done, ok := DoPrepare();
      LeadsByStep(parent.env, w, name, p, parent.Snapshot(), done, ok);
    }

    method StepAttachLog(ghost p: Program) returns (done: bool, ok: bool)
      requires Loaded() && p != [] && p[0] == AttachLog && Legal(parent.env, name, p)
      modifies parent`trace, this
      ensures Loaded()
      ensures Leads(parent.env, old(parent.Snapshot()), name, p, parent.Snapshot(), done, ok, p[1..])
    {
      hide Exec, Step, Leads;
      ghost var w := parent.Snapshot();
      done, ok := DoAttachLog();
      LeadsByStep(parent.env, w, name, p, parent.Snapshot(), done, ok);
    }

    method StartAllDependencies(history: History, ghost rest: Program) returns (done: bool, ok: bool)
      requires Loaded() && Legal(parent.env, name, rest)
      requires Legal(parent.env, name, DependPart(parent.env, history, name))
      modifies parent`trace, parent.list.Values
      ensures Loaded()
      ensures Leads(parent.env, old(parent.Snapshot()), name, DependPart(parent.env, history, name) + rest,
                    parent.Snapshot(), done, ok, rest)
      decreases Rank(parent.env.Edges(), name), 0, 3
    {
      ghost var c := parent.env;
      var needs := parent.env.order(history, name, Requires);
      var binds := parent.env.order(history, name, BindsTo);
      var wants := parent.env.order(history, name, Wants);
      var upholds := parent.env.order(history, name, Upholds);
      ghost var r4 := Depends(upholds, false) + rest;
      ghost var r3 := Depends(wants, false) + r4;
      ghost var r2 := Depends(binds, true) + r3;
      assert DependPart(c, history, name) + rest == Depends(needs, true) + r2;
      LegalParts(c, name, Depends(needs, true), Depends(binds, true) + (Depends(wants, false) + Depends(upholds, false)));
      LegalParts(c, name, Depends(binds, true), Depends(wants, false) + Depends(upholds, false));
      LegalParts(c, name, Depends(wants, false), Depends(upholds, false));
      LegalPrepend(c, name, Depends(upholds, false), rest);
      LegalPrepend(c, name, Depends(wants, false), r4);
      LegalPrepend(c, name, Depends(binds, true), r3);
      done, ok := StartDependencies(needs, true, r2);
      if done { return; }
      done, ok := StartDependencies(binds, true, r3);
      if done { return; }
      done, ok := StartDependencies(wants, false, r4);
      if done { return; }
      done, ok := StartDependencies(upholds, false, rest);
    }

    method RunAllCommands() returns (ok: bool)
      requires Loaded()
      modifies parent`trace, this
      ensures Loaded()
      ensures Legal(parent.env, name, CommandPart(def))
      ensures Outcome(parent.Snapshot(), ok) == Exec(parent.env, old(parent.Snapshot()), name, CommandPart(def))
    {
      assert parent.env.Valid() && name in parent.env.defs && def == parent.env.defs[name];
      hide Loaded, Daemons.Valid;
      ghost var r3 := Runs(ExecStartPost, def.startPost) + [Finish];
      ghost var r2 := Runs(ExecStart, def.start) + r3;
      LegalPrepend(parent.env, name, Runs(ExecStartPost, def.startPost), [Finish]);
      LegalPrepend(parent.env, name, Runs(ExecStart, def.start), r3);
      var done;
      done, ok := RunCommands(ExecStartPre, def.startPre, r2);
      if done { return; }
      done, ok := RunCommands(ExecStart, def.start, r3);
      if done { return; }
      done, ok := RunCommands(ExecStartPost, def.startPost, [Finish]);
      if done { return; }
      ok := FinishStart();
    }

    method FinishStart() returns (ok: bool)
      requires Loaded()
      modifies this
      ensures Loaded()
      ensures Outcome(parent.Snapshot(), ok) == Exec(parent.env, old(parent.Snapshot()), name, [Finish])
    {
      if state == Stopping {
        return false;
      }
      Write(DaemonState.Running, false);
      return true;
    }

    /** `Restart`. */
    method Restart() returns (ok: bool)
      requires Loaded()
      modifies parent`trace, parent.list.Values
      ensures Loaded()
      ensures Outcome(parent.Snapshot(), ok) == Engine.Restart(parent.env, old(parent.Snapshot()), name)
    {
      if isMasked || state == Restarting || state == Stopping || state == Starting {
        return false;
      }
      Write(Restarting, stateError);
      ok := Stop(true);
      if !ok {
        return;
      }
      if state == Stopping {
        return false;
      }
      ok := Start(true);
    }

    // ---- when the processes of a running unit have exited

    /** The restart policy now in force. */
    method PolicyNow() returns (mode: M.Mode)
      requires Loaded()
      ensures mode == M.ModeNow(parent.env, parent.Snapshot(), name)
    {
      if state == Stopped || state == Stopping || state == Restarting {
        return M.Never;
      }
      mode := M.ModeOf(def.restart);
      var upholders := def.Names(UpheldBy);
      if exists u :: u in upholders && u in parent.list && parent.list[u].state == DaemonState.Running {
        mode := M.Always;
      }
    }

    method StopNamed(names: seq<Name>)
      requires Loaded()
      modifies parent`trace, parent.list.Values
      ensures Loaded()
      ensures parent.Snapshot() == M.StopNames(parent.env, old(parent.Snapshot()), names)
    {
      ghost var w0 := parent.Snapshot();
      assert names[0..] == names;
      for i := 0 to |names|
        invariant M.StopNames(parent.env, parent.Snapshot(), names[i..]) == M.StopNames(parent.env, w0, names)
      {
        assert names[i..][1..] == names[i + 1..];
        if names[i] in parent.list {
          var _ := StopOther(parent.list[names[i]]);
        }
      }
    }

    /** `handleStopDeps`. */
    method HandleStopDeps()
      requires Loaded()
      modifies parent`trace, parent.list.Values
      ensures Loaded()
      ensures parent.Snapshot() == M.StopDependents(parent.env, old(parent.Snapshot()), name)
    {
      StopNamed(parent.env.order(parent.trace, name, BoundBy));
      StopNamed(parent.env.order(parent.trace, name, ConsistsOf));
    }

    method GiveUp()
      requires Loaded()
      modifies parent`trace, parent.list.Values
      ensures Loaded()
      ensures parent.Snapshot() == M.EndRun(parent.env, old(parent.Snapshot()), name)
    {
      Store(Unit(Stopped, stateError, false, remainAfterExit));
      HandleStopDeps();
    }

    method ExitError(ans: seq<M.Status>) returns (failed: bool)
      ensures failed == M.AnyFailed(ans)
    {
      failed := false;
      for i := 0 to |ans|
        invariant failed <==> exists k :: 0 <= k < i && ans[k].Failed()
      {
        if ans[i].Exit? && ans[i].code != 0 {
          failed := true;
        }
      }
    }

    method Become(s: DaemonState)
      requires Loaded()
      modifies this`state, this`stateError, this`isManual, this`remainAfterExit
      ensures Loaded()
      ensures parent.Snapshot() == old(parent.Snapshot()).SetState(name, s)
      ensures stateError == old(stateError) && remainAfterExit == old(remainAfterExit)
    {
      Write(s, stateError);
    }

    method Blame(failed: bool)
      requires Loaded()
      modifies this`state, this`stateError, this`isManual, this`remainAfterExit
      ensures Loaded()
      ensures parent.Snapshot() == old(parent.Snapshot()).SetFailed(name, failed)
      ensures stateError == failed && remainAfterExit == old(remainAfterExit)
    {
      Write(state, failed);
    }

    /** `monitorCmds` from the last exit status to its sleep; asleep says that it comes to the sleep. */
    method ProcessesExited(ans: seq<M.Status>) returns (asleep: bool, mode: M.Mode)
      requires Loaded()
      modifies parent`trace, parent.list.Values
      ensures Loaded()
      ensures M.Exited(parent.env, old(parent.Snapshot()), name, ans) ==
              if asleep then M.Asleep(parent.Snapshot(), mode) else M.Ended(parent.Snapshot())
    {
      hide M.Reacted;
      var failed := ExitError(ans);
      var action := if failed then def.failureAction else def.successAction;
      if "poweroff" <= action {
        var _ := Perform(PowerOff);
        return false, M.Never;
      }
      asleep, mode := FollowPolicy(failed);
    }

    method FollowPolicy(failed: bool) returns (asleep: bool, mode: M.Mode)
      requires Loaded()
      modifies parent`trace, parent.list.Values
      ensures Loaded()
      ensures var w := old(parent.Snapshot());
              M.Reacted(parent.env, w, name, M.ModeNow(parent.env, w, name), failed) ==
              if asleep then M.Asleep(parent.Snapshot(), mode) else M.Ended(parent.Snapshot())
    {
      mode := PolicyNow();
      asleep := React(mode, failed);
    }

    /** The switch over the policy. */
    method React(mode: M.Mode, failed: bool) returns (asleep: bool)
      requires Loaded()
      modifies parent`trace, parent.list.Values
      ensures Loaded()
      ensures M.Reacted(parent.env, old(parent.Snapshot()), name, mode, failed) ==
              if asleep then M.Asleep(parent.Snapshot(), mode) else M.Ended(parent.Snapshot())
    {
      match mode {
        case Always => Become(Restarting); return true;
        case OnFailure => asleep := ReactOnFailure(failed);
        case OnSuccess => asleep := ReactOnSuccess(failed);
        case Never => ReactNever(failed); return false;
      }
    }

    method ReactOnFailure(failed: bool) returns (asleep: bool)
      requires Loaded()
      modifies parent`trace, parent.list.Values
      ensures Loaded()
      ensures M.Reacted(parent.env, old(parent.Snapshot()), name, M.OnFailure, failed) ==
              if asleep then M.Asleep(parent.Snapshot(), M.OnFailure) else M.Ended(parent.Snapshot())
    {
      hide M.EndRun;
      Blame(failed);
      if stateError {
        Become(Restarting);
        return true;
      } else if !remainAfterExit {
        GiveUp();
      }
      return false;
    }

    method ReactOnSuccess(failed: bool) returns (asleep: bool)
      requires Loaded()
      modifies parent`trace, parent.list.Values
      ensures Loaded()
      ensures M.Reacted(parent.env, old(parent.Snapshot()), name, M.OnSuccess, failed) ==
              if asleep then M.Asleep(parent.Snapshot(), M.OnSuccess) else M.Ended(parent.Snapshot())
    {
      hide M.EndRun;
      Blame(failed);
      if !stateError && !remainAfterExit {
        Become(Restarting);
        return true;
      } else if stateError {
        GiveUp();
      }
      return false;
    }

    method ReactNever(failed: bool)
      requires Loaded()
      modifies parent`trace, parent.list.Values
      ensures Loaded()
      ensures M.Reacted(parent.env, old(parent.Snapshot()), name, M.Never, failed) == M.Ended(parent.Snapshot())
    {
      hide M.EndRun;
      if failed {
        Blame(true);
      }
      if !remainAfterExit || stateError {
        GiveUp();
      }
    }

    /** Another start, as by hand if the last one was; if it fails after on-success, the run is over. */
    method StartAgain(mode: M.Mode)
      requires Loaded()
      modifies parent`trace, parent.list.Values
      ensures Loaded()
      ensures var w := old(parent.Snapshot());
              var o := Engine.Start(parent.env, w, name, w.units[name].manual);
              parent.Snapshot() == if o.ok || !mode.OnSuccess? then o.w else M.StopDependents(parent.env, o.w, name)
    {
      hide Engine.Start, M.StopDependents;
      var ok := Start(isManual);
      if !ok && mode.OnSuccess? {
        HandleStopDeps();
      }
    }

    /** `monitorCmds` from the end of its sleep. */
    method WakeUp(mode: M.Mode)
      requires Loaded()
      modifies parent`trace, parent.list.Values
      ensures Loaded()
      ensures parent.Snapshot() == M.Woken(parent.env, old(parent.Snapshot()), name, mode)
    {
      hide Engine.Start, M.StopDependents;
      if parent.IsShuttingDown() || state == Stopped {
        return;
      }
      if mode.Always? {
        Blame(false);
      }
      StartAgain(mode);
    }
  }

  lemma SameMap(a: map<Name, Unit>, b: map<Name, Unit>)
    requires a.Keys == b.Keys && forall n :: n in a ==> a[n] == b[n]
    ensures a == b
  {
  }

  /** A walk over `all` has been at the names in order, and those left are still to come. */
  ghost predicate Walked(order: seq<Name>, left: set<Name>, all: set<Name>) {
    |order| + |left| == |all| && forall d :: d in order <==> d in all && d !in left
  }

  lemma WalkOn(order: seq<Name>, left: set<Name>, all: set<Name>, d: Name)
    requires Walked(order, left, all) && left <= all && d in left
    ensures Walked(order + [d], left - {d}, all) && left - {d} <= all && |left - {d}| < |left|
  {
  }

  lemma ProgramParts(c: Config, h: History, d: Name)
    requires c.Valid() && d in c.defs
    ensures var conflicts := ConflictsWith(c.order(h, d, Conflicts)) + CommandPart(c.defs[d]);
            var deps := DependPart(c, h, d) + conflicts;
            && Legal(c, d, ProgramOf(c, h, d)) && Legal(c, d, Conditions(c.defs[d].conditions) + deps)
            && Legal(c, d, deps) && Legal(c, d, DependPart(c, h, d)) && Legal(c, d, conflicts)
            && Legal(c, d, CommandPart(c.defs[d]))
            && ProgramOf(c, h, d) == [Prepare, AttachLog] + (Conditions(c.defs[d].conditions) + deps)
  {
    hide Legal, DependPart, CommandPart, Conditions;
    ProgramLegal(c, h, d);
    var conflicts := ConflictsWith(c.order(h, d, Conflicts)) + CommandPart(c.defs[d]);
    var deps := DependPart(c, h, d) + conflicts;
    LegalParts(c, d, [Prepare, AttachLog], Conditions(c.defs[d].conditions) + deps);
    LegalParts(c, d, Conditions(c.defs[d].conditions), deps);
    LegalParts(c, d, DependPart(c, h, d), conflicts);
    LegalParts(c, d, ConflictsWith(c.order(h, d, Conflicts)), CommandPart(c.defs[d]));
  }

  /** From nothing to a running system: the units are allocated, then the wanted ones are started. */
  method Boot(env: Config, masked: set<Name>, remaining: set<Name>, wanted: seq<Name>) returns (ds: Daemons)
    requires env.Valid()
    ensures fresh(ds) && ds.Valid() && ds.env == env
    ensures ds.Snapshot() == EngineSettled.StartEach(env, InitialWorld(env, masked, remaining), wanted)
  {
    ds := new Daemons(env, masked, remaining);
    ds.StartWanted(wanted);
  }

  lemma ConflictStep(c: Config, w: World, d: Name, x: Name)
    requires c.Valid() && w.units.Keys == c.defs.Keys && d in w.units
    ensures var o := Engine.Stop(c, w, x, true);
            && Step(c, w, d, Conflict(x)) == (if o.ok then Continue(o.w) else Return(Outcome(o.w.Fail(d), false)))
            && (x !in w.units ==> o == Outcome(w, true))
  {
  }

  lemma DependStep(c: Config, w: World, d: Name, r: Name, hard: bool)
    requires c.Valid() && w.units.Keys == c.defs.Keys && d in w.units && Legal(c, d, [Depend(r, hard)])
    ensures var o := Engine.Start(c, w, r, false);
            && Step(c, w, d, Depend(r, hard)) ==
               (if hard && !o.ok then Return(Outcome(o.w.Fail(d), false)) else Continue(o.w))
            && (r !in w.units ==> o == Outcome(w, true))
  {
  }

  /** Running p from w comes to w' with result ok (done), or to running rest from w'. */
  ghost predicate Leads(c: Config, w: World, d: Name, p: Program, w': World, done: bool, ok: bool, rest: Program)
    requires c.Valid()
  {
    && w.units.Keys == w'.units.Keys == c.defs.Keys && d in w.units && Legal(c, d, p) && Legal(c, d, rest)
    && Exec(c, w, d, p) == if done then Outcome(w', ok) else Exec(c, w', d, rest)
  }

  function Went(w: World, done: bool, ok: bool): StepResult {
    if done then Return(Outcome(w, ok)) else Continue(w)
  }

  /** What leading means for the program as a whole. */
  lemma LeadsOut(c: Config, w: World, d: Name, p: Program, w': World, done: bool, ok: bool, rest: Program)
    requires c.Valid() && Leads(c, w, d, p, w', done, ok, rest)
    ensures w.units.Keys == w'.units.Keys == c.defs.Keys && d in w.units && Legal(c, d, p) && Legal(c, d, rest)
    ensures Exec(c, w, d, p) == if done then Outcome(w', ok) else Exec(c, w', d, rest)
  {
  }

  lemma PreambleLegal(c: Config, d: Name, rest: Program)
    requires Legal(c, d, rest)
    ensures var p := [Prepare, AttachLog] + rest;
            Legal(c, d, p) && Legal(c, d, p[1..]) && p[1..] != [] && p[1..][0] == AttachLog && p[2..] == rest
  {
    LegalPrepend(c, d, [Prepare, AttachLog], rest);
  }

  /** Once done, what was left to run no longer matters. */
  lemma LeadsDone(c: Config, w: World, d: Name, p: Program, w': World, ok: bool, rest: Program, rest': Program)
    requires c.Valid() && Leads(c, w, d, p, w', true, ok, rest) && Legal(c, d, rest')
    ensures Leads(c, w, d, p, w', true, ok, rest')
  {
  }

  lemma LeadsThrough(c: Config, w: World, d: Name, p: Program, w1: World, p1: Program, w2: World, done: bool, ok: bool,
                     rest: Program)
    requires c.Valid() && Leads(c, w, d, p, w1, false, true, p1) && Leads(c, w1, d, p1, w2, done, ok, rest)
    ensures Leads(c, w, d, p, w2, done, ok, rest)
  {
  }

  lemma RestAt(c: Config, d: Name, p: Program, i: nat)
    requires i < |p| && Legal(c, d, p)
    ensures p[i..] != [] && p[i..][0] == p[i] && Legal(c, d, p[i..])
  {
  }

  lemma LeadsAborted(c: Config, w: World, d: Name, p: Program)
    requires c.Valid() && w.units.Keys == c.defs.Keys && d in w.units
    requires p != [] && Legal(c, d, p) && p[0].Guarded() && Aborted(w, d)
    ensures Leads(c, w, d, p, w, true, false, p[1..])
  {
  }

  lemma LeadsByStep(c: Config, w: World, d: Name, p: Program, w': World, done: bool, ok: bool)
    requires c.Valid() && w.units.Keys == w'.units.Keys == c.defs.Keys && d in w.units
    requires p != [] && Legal(c, d, p) && Legal(c, d, [p[0]])
    requires !(p[0].Guarded() && Aborted(w, d)) && !p[0].Finish?
    requires Step(c, w, d, p[0]) == Went(w', done, ok)
    ensures Leads(c, w, d, p, w', done, ok, p[1..])
  {
    if done {
      ExecReturns(c, w, d, p);
    } else {
      ExecContinues(c, w, d, p);
    }
  }

  lemma LeadsOn(c: Config, w: World, d: Name, p: Program, w1: World, i: nat, w2: World, done: bool, ok: bool)
    requires c.Valid() && i < |p|
    requires Leads(c, w, d, p, w1, false, true, p[i..])
    requires Leads(c, w1, d, p[i..], w2, done, ok, p[i..][1..])
    ensures Leads(c, w, d, p, w2, done, ok, p[i + 1..])
  {
    assert p[i..][1..] == p[i + 1..];
  }

  lemma LegalPrepend(c: Config, d: Name, a: Program, b: Program)
    requires Legal(c, d, a) && Legal(c, d, b)
    ensures Legal(c, d, a + b)
    ensures forall i :: 0 <= i <= |a + b| ==> Legal(c, d, (a + b)[i..])
  {
    var p := a + b;
    assert forall i :: 0 <= i < |p| ==> p[i] == if i < |a| then a[i] else b[i - |a|];
  }

  lemma LegalParts(c: Config, d: Name, a: Program, b: Program)
    requires Legal(c, d, a + b)
    ensures Legal(c, d, a) && Legal(c, d, b)
  {
    assert forall i :: 0 <= i < |a| ==> (a + b)[i] == a[i];
    forall i | 0 <= i < |b|
      ensures b[i].Depend? ==> Edge(c.Edges(), d, b[i].dep)
    {
      assert (a + b)[|a| + i] == b[i];
    }
  }
}
