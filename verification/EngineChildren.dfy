/** Which other units a start starts, and in which order. */
module EngineChildren {
  import opened Graph
  import opened Engine
  import opened EngineActs
  import opened EngineOrder
  import opened EngineNesting
  import opened EngineBlock

  /** The dependencies a program starts, from the front. */
  function DepsOf(p: Program): seq<Name> {
    if p == [] then [] else (if p[0].Depend? then [p[0].dep] else []) + DepsOf(p[1..])
  }

  lemma {:induction false} DepsConcat(p: Program, q: Program)
    ensures DepsOf(p + q) == DepsOf(p) + DepsOf(q)
    decreases |p|
  {
    if p == [] {
      assert p + q == q;
    } else {
      assert (p + q)[1..] == p[1..] + q;
      DepsConcat(p[1..], q);
    }
  }

  lemma {:induction false} NoDeps(p: Program)
    requires forall i :: 0 <= i < |p| ==> !p[i].Depend?
    ensures DepsOf(p) == []
    decreases |p|
  {
    if p != [] {
      NoDeps(p[1..]);
    }
  }

  lemma {:induction false} DepsOfDepends(names: seq<Name>, hard: bool)
    ensures DepsOf(Depends(names, hard)) == names
    decreases |names|
  {
    if names != [] {
      assert Depends(names, hard)[1..] == Depends(names[1..], hard);
      DepsOfDepends(names[1..], hard);
    }
  }

  lemma DepsOfProgram(c: Config, h: History, d: Name)
    requires d in c.defs
    ensures DepsOf(ProgramOf(c, h, d)) ==
            c.order(h, d, Requires) + c.order(h, d, BindsTo) + c.order(h, d, Wants) + c.order(h, d, Upholds)
  {
    hide DepsOf;
    var def := c.defs[d];
    var deps, others, commands := DependPart(c, h, d), ConflictsWith(c.order(h, d, Conflicts)), CommandPart(def);
    DepsConcat([Prepare, AttachLog], Conditions(def.conditions) + (deps + (others + commands)));
    DepsConcat(Conditions(def.conditions), deps + (others + commands));
    DepsConcat(deps, others + commands);
    NoDeps([Prepare, AttachLog]);
    NoDeps(Conditions(def.conditions));
    NoDeps(others + commands);
    DepsOfPart(c, h, d);
  }

  lemma DepsOfPart(c: Config, h: History, d: Name)
    ensures DepsOf(DependPart(c, h, d)) ==
            c.order(h, d, Requires) + c.order(h, d, BindsTo) + c.order(h, d, Wants) + c.order(h, d, Upholds)
  {
    hide DepsOf;
    var a, b := Depends(c.order(h, d, Requires), true), Depends(c.order(h, d, BindsTo), true);
    var e, f := Depends(c.order(h, d, Wants), false), Depends(c.order(h, d, Upholds), false);
    DepsConcat(a, b + (e + f));
    DepsConcat(b, e + f);
    DepsConcat(e, f);
    DepsOfDepends(c.order(h, d, Requires), true);
    DepsOfDepends(c.order(h, d, BindsTo), true);
    DepsOfDepends(c.order(h, d, Wants), false);
    DepsOfDepends(c.order(h, d, Upholds), false);
  }

  // ---- the starts inside

  lemma FreeIsOuter(w: World, w': World)
    requires StartFree(w, w')
    ensures Outer(w, w', [])
  {
    DidsAreInner(w'.log[|w.log|..], 0);
  }

  lemma StopFree(c: Config, w: World, d: Name, announce: bool)
    requires w.units.Keys == c.defs.Keys
    ensures StartFree(w, Stop(c, w, d, announce).w)
  {
    hide RunStop, StopDeeds;
    if d in w.units && d !in w.masked && c.outcome(w.log, d, OpenLog) {
      StopDoes(c, w, d, announce);
    }
  }

  lemma RunFree(c: Config, w: World, d: Name, phase: Phase, line: string)
    requires w.units.Keys == c.defs.Keys && d in w.units
    ensures StartFree(w, RunCommand(c, w, d, phase, line).After())
  {
    hide Stop;
    var o := Perform(c, w, d, Command(phase, Bare(line)));
    StopFree(c, o.w, d, true);
    var w' := Stop(c, o.w, d, true).w;
    forall k | |w.log| <= k < |w'.log|
      ensures w'.log[k].Did?
    {
      assert k < |o.w.log| ==> w'.log[k] == o.w.log[k];
    }
  }

  /** An instruction starts the dependency it names, if that is loaded, and nothing else by itself. */
  lemma StepOuter(c: Config, w: World, d: Name, i: Instr)
    requires Usable(c, w) && d in w.units && Legal(c, d, [i])
    ensures Outer(w, Step(c, w, d, i).After(), if i.Depend? && i.dep in w.units then [i.dep] else [])
  {
    hide Start, Stop, RunCommand, Outer;
    match i {
      case Depend(r, _) =>
        assert Edge(c.Edges(), d, [i][0].dep);
        StartNested(c, w, r, false);
        SameOuter(w, Start(c, w, r, false).w, Step(c, w, d, i).After(), if r in w.units then [r] else []);
      case Conflict(y) =>
        StopFree(c, w, y, true);
        FreeIsOuter(w, Step(c, w, d, i).After());
      case Run(phase, line) =>
        RunFree(c, w, d, phase, line);
        FreeIsOuter(w, Step(c, w, d, i).After());
      case _ => FreeIsOuter(w, Step(c, w, d, i).After());
    }
  }

  lemma SameOuter(w: World, w1: World, w2: World, names: seq<Name>)
    requires Outer(w, w1, names) && w2.log == w1.log
    ensures Outer(w, w2, names)
  {
  }

  /** The starts between w and w' that no other encloses. */
  function Children(w: World, w': World): seq<Name>
    requires w.log <= w'.log
  {
    Outermost(w'.log[|w.log|..], 0)
  }

  ghost predicate Closed(w: World, w': World) {
    w.log <= w'.log && Ends(w'.log[|w.log|..], 0) == 0
  }

  lemma FinishedDeps(p: Program)
    requires InOrder(p) && p != [] && p[0].Finish?
    ensures DepsOf(p) == []
  {
    forall k | 0 <= k < |p|
      ensures !p[k].Depend?
    {
      assert Stage(p[0]) <= Stage(p[k]);
    }
    NoDeps(p);
  }

  lemma ChildrenCompose(w: World, w1: World, w': World, names: seq<Name>)
    requires Outer(w, w1, names) && Closed(w1, w')
    ensures Closed(w, w') && Children(w, w') == names + Children(w1, w')
  {
    OuterComposes(w, w1, w', names, Children(w1, w'));
  }

  lemma NoChildren(w: World, w': World)
    requires w'.log == w.log
    ensures Closed(w, w') && Children(w, w') == []
  {
    assert w'.log[|w.log|..] == [];
  }

  lemma {:induction false} ExecStarts(c: Config, w: World, d: Name, p: Program)
    requires Usable(c, w) && d in w.units && Legal(c, d, p) && InOrder(p) && !w.IsState(d, Running)
    ensures var w' := Exec(c, w, d, p).w;
            && Closed(w, w') && Children(w, w') <= LoadedOf(w, DepsOf(p))
            && (w'.IsState(d, Running) ==> Children(w, w') == LoadedOf(w, DepsOf(p)))
    decreases |p|
  {
    hide Children, Closed, Outer, Step;
    var w' := Exec(c, w, d, p).w;
    if p == [] || (p[0].Guarded() && Aborted(w, d)) {
      NoChildren(w, w');
    } else if p[0].Finish? {
      NoChildren(w, w');
      FinishedDeps(p);
    } else {
      var s := Step(c, w, d, p[0]);
      StepStaysDown(c, w, d, p[0]);
      StepOuter(c, w, d, p[0]);
      if s.Continue? {
        ExecContinues(c, w, d, p);
        ExecStarts(c, s.w, d, p[1..]);
        SameLoaded(w, s.w, DepsOf(p[1..]));
        ChildrenCompose(w, s.w, w', if p[0].Depend? && p[0].dep in w.units then [p[0].dep] else []);
        LoadedFirst(w, p);
      } else {
        ExecReturns(c, w, d, p);
        OuterAlone(w, w', if p[0].Depend? && p[0].dep in w.units then [p[0].dep] else []);
        LoadedFirst(w, p);
      }
    }
  }

  lemma OuterAlone(w: World, w': World, names: seq<Name>)
    requires Outer(w, w', names)
    ensures Closed(w, w') && Children(w, w') == names
  {
  }

  lemma LoadedFirst(w: World, p: Program)
    requires p != []
    ensures LoadedOf(w, DepsOf(p)) ==
            (if p[0].Depend? && p[0].dep in w.units then [p[0].dep] else []) + LoadedOf(w, DepsOf(p[1..]))
  {
    if p[0].Depend? {
      assert DepsOf(p)[1..] == DepsOf(p[1..]);
    } else {
      assert DepsOf(p) == DepsOf(p[1..]);
    }
  }

  /** A start of a unit that is not Running starts, itself, the loaded ones of the units it requires, binds to, wants and
      upholds, from the front and in this order, each relation in the order its map iterates; all of them if it leaves
      the unit Running. */
  lemma StartsDependencies(c: Config, w: World, d: Name, manual: bool)
    requires Usable(c, w) && d in w.units && !w.IsState(d, Running)
    ensures var h, w' := w.log + [Enter(d)], Start(c, w, d, manual).w;
            var all := c.order(h, d, Requires) + c.order(h, d, BindsTo) + c.order(h, d, Wants) + c.order(h, d, Upholds);
            && |w'.log| > |h| && h <= w'.log
            && var own := Outermost(w'.log[|h|..|w'.log| - 1], 0);
            && own <= LoadedOf(w, all)
            && (w'.IsState(d, Running) ==> own == LoadedOf(w, all))
  {
    hide Start, CleanUp, Begin, Exec, Outermost, LoadedOf, ProgramOf;
    if !w.shutdown && d !in w.masked && w.units[d].state in {Stopped, Restarting} {
      StartUnfolds(c, w, d, manual);
      var h := w.log + [Enter(d)];
      var b := Begin(c, w.Note(Enter(d)), d, manual);
      var s := CleanUp(c, b, d);
      var o := if s.Continue? then Exec(c, s.w, d, ProgramOf(c, h, d)) else s.o;
      EntryStaysDown(c, w, d, manual);
      CleanUpOuter(c, b, d);
      if s.Continue? {
        ProgramInOrder(c, h, d);
        DepsOfProgram(c, h, d);
        ExecStarts(c, s.w, d, ProgramOf(c, h, d));
        ChildrenCompose(b, s.w, o.w, []);
        SameLoaded(w, s.w, DepsOf(ProgramOf(c, h, d)));
      } else {
        OuterAlone(b, s.o.w, []);
      }
      Inside(b, o.w, Start(c, w, d, manual).w, d, o.ok);
    } else {
      StartRefused(c, w, d, manual);
      RefusedStaysDown(c, w, d, manual);
      var w1 := w.Note(Enter(d));
      NoChildren(w1, w1);
      Inside(w1, w1, Start(c, w, d, manual).w, d, Start(c, w, d, manual).ok);
    }
  }

  lemma Inside(b: World, w1: World, w': World, d: Name, ok: bool)
    requires b.log <= w1.log && w'.log == w1.log + [Returned(d, ok)]
    ensures |w'.log| > |b.log| && b.log <= w'.log && Outermost(w'.log[|b.log|..|w'.log| - 1], 0) == Children(b, w1)
  {
    assert w'.log[|b.log|..|w'.log| - 1] == w1.log[|b.log|..];
  }

  lemma CleanUpOuter(c: Config, w: World, d: Name)
    requires w.units.Keys == c.defs.Keys && d in w.units
    ensures Outer(w, CleanUp(c, w, d).After(), [])
  {
    hide Stop;
    StopFree(c, w, d, false);
    FreeIsOuter(w, CleanUp(c, w, d).After());
  }
}
