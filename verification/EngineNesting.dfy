/** Starts are well nested in the history, and a boot is the starts of the wanted units one after the other. */
module EngineNesting {
  import opened Graph
  import opened Engine
  import opened EngineActs
  import opened EngineSettled
  import opened EngineOrder

  /** How many starts are under way after e, if `depth` were before. */
  function Shift(e: Event, depth: nat): nat {
    if e.Enter? then depth + 1 else if e.Returned? && depth > 0 then depth - 1 else depth
  }

  /** How many are after a stretch of history. */
  function Ends(log: History, depth: nat): nat {
    if log == [] then depth else Ends(log[1..], Shift(log[0], depth))
  }

  /** The starts in a stretch of history that no other start encloses. */
  function Outermost(log: History, depth: nat): seq<Name> {
    if log == [] then []
    else (if log[0].Enter? && depth == 0 then [log[0].d] else []) + Outermost(log[1..], Shift(log[0], depth))
  }

  lemma {:induction false} NestConcat(a: History, b: History, depth: nat)
    ensures Ends(a + b, depth) == Ends(b, Ends(a, depth))
    ensures Outermost(a + b, depth) == Outermost(a, depth) + Outermost(b, Ends(a, depth))
  {
    if a == [] {
      assert a + b == b;
    } else {
      assert (a + b)[0] == a[0] && (a + b)[1..] == a[1..] + b;
      NestConcat(a[1..], b, Shift(a[0], depth));
    }
  }

  /** Whatever starts lie between w and w', they are inside one that is under way, and are over again. */
  ghost predicate Inner(w: World, w': World) {
    && w.log <= w'.log
    && forall depth: nat :: depth >= 1 ==>
         Ends(w'.log[|w.log|..], depth) == depth && Outermost(w'.log[|w.log|..], depth) == []
  }

  /** Between w and w' lie these outermost starts. */
  ghost predicate Outer(w: World, w': World, names: seq<Name>) {
    w.log <= w'.log && Ends(w'.log[|w.log|..], 0) == 0 && Outermost(w'.log[|w.log|..], 0) == names
  }

  lemma InnerComposes(w0: World, w1: World, w2: World)
    requires Inner(w0, w1) && Inner(w1, w2)
    ensures Inner(w0, w2)
  {
    var a, b := w1.log[|w0.log|..], w2.log[|w1.log|..];
    assert w2.log[|w0.log|..] == a + b;
    forall depth: nat | depth >= 1
      ensures Ends(a + b, depth) == depth && Outermost(a + b, depth) == []
    {
      NestConcat(a, b, depth);
    }
  }

  lemma OuterComposes(w0: World, w1: World, w2: World, a: seq<Name>, b: seq<Name>)
    requires Outer(w0, w1, a) && Outer(w1, w2, b)
    ensures Outer(w0, w2, a + b)
  {
    assert w2.log[|w0.log|..] == w1.log[|w0.log|..] + w2.log[|w1.log|..];
    NestConcat(w1.log[|w0.log|..], w2.log[|w1.log|..], 0);
  }

  /** A stretch without starts. */
  ghost predicate StartFree(w: World, w': World) {
    w.log <= w'.log && forall i :: |w.log| <= i < |w'.log| ==> w'.log[i].Did?
  }

  lemma {:induction false} DidsAreInner(log: History, depth: nat)
    requires forall i :: 0 <= i < |log| ==> log[i].Did?
    ensures Ends(log, depth) == depth && Outermost(log, depth) == []
  {
    if log != [] {
      DidsAreInner(log[1..], depth);
    }
  }

  lemma FreeIsInner(w: World, w': World)
    requires StartFree(w, w')
    ensures Inner(w, w')
  {
    forall depth: nat | depth >= 1
      ensures Ends(w'.log[|w.log|..], depth) == depth && Outermost(w'.log[|w.log|..], depth) == []
    {
      DidsAreInner(w'.log[|w.log|..], depth);
    }
  }

  lemma StopInner(c: Config, w: World, d: Name, announce: bool)
    requires w.units.Keys == c.defs.Keys
    ensures Inner(w, Stop(c, w, d, announce).w)
  {
    hide RunStop, StopDeeds;
    if d in w.units && d !in w.masked && c.outcome(w.log, d, OpenLog) {
      StopDoes(c, w, d, announce);
    }
    FreeIsInner(w, Stop(c, w, d, announce).w);
  }

  lemma CleanUpInner(c: Config, w: World, d: Name)
    requires w.units.Keys == c.defs.Keys && d in w.units
    ensures Inner(w, CleanUp(c, w, d).After())
  {
    hide Stop;
    StopInner(c, w, d, false);
    FreeIsInner(w, w);
  }

  lemma RunInner(c: Config, w: World, d: Name, phase: Phase, line: string)
    requires w.units.Keys == c.defs.Keys && d in w.units
    ensures Inner(w, RunCommand(c, w, d, phase, line).After())
  {
    hide Stop;
    var o := Perform(c, w, d, Command(phase, Bare(line)));
    FreeIsInner(w, o.w);
    StopInner(c, o.w, d, true);
    InnerComposes(w, o.w, Stop(c, o.w, d, true).w);
  }

  lemma {:induction false} StepInner(c: Config, w: World, d: Name, i: Instr)
    requires Usable(c, w) && d in w.units && Legal(c, d, [i])
    ensures Inner(w, Step(c, w, d, i).After())
    decreases Rank(c.Edges(), d), 0, 0
  {
    hide Start, Stop, RunCommand;
    match i {
      case Depend(r, _) =>
        assert Edge(c.Edges(), d, [i][0].dep);
        RankDecreases(c.Edges(), d, r);
        StartNested(c, w, r, false);
      case Conflict(y) => StopInner(c, w, y, true);
      case Run(phase, line) => RunInner(c, w, d, phase, line);
      case _ => FreeIsInner(w, Step(c, w, d, i).After());
    }
  }

  lemma {:induction false} ExecInner(c: Config, w: World, d: Name, p: Program)
    requires Usable(c, w) && d in w.units && Legal(c, d, p)
    ensures Inner(w, Exec(c, w, d, p).w)
    decreases Rank(c.Edges(), d), 0, |p|
  {
    hide Inner;
    if p != [] && !(p[0].Guarded() && Aborted(w, d)) && !p[0].Finish? {
      StepInner(c, w, d, p[0]);
      var s := Step(c, w, d, p[0]);
      if s.Continue? {
        ExecContinues(c, w, d, p);
        ExecInner(c, s.w, d, p[1..]);
        InnerComposes(w, s.w, Exec(c, s.w, d, p[1..]).w);
      } else {
        ExecReturns(c, w, d, p);
      }
    } else {
      FreeIsInner(w, Exec(c, w, d, p).w);
    }
  }

  /** A start of a loaded unit is one outermost start, whatever is nested in it. */
  lemma {:induction false} StartNested(c: Config, w: World, d: Name, manual: bool)
    requires Usable(c, w)
    ensures var w' := Start(c, w, d, manual).w; Inner(w, w') && Outer(w, w', if d in w.units then [d] else [])
    decreases Rank(c.Edges(), d), 1, 0
  {
    hide Start, CleanUp, Begin, Exec, Inner, Outer;
    var ok := Start(c, w, d, manual).ok;
    if d in w.units && !w.shutdown && d !in w.masked && w.units[d].state in {Stopped, Restarting} {
      StartUnfolds(c, w, d, manual);
      var b := Begin(c, w.Note(Enter(d)), d, manual);
      var s := CleanUp(c, b, d);
      CleanUpInner(c, b, d);
      var p := ProgramOf(c, w.log + [Enter(d)], d);
      var o := if s.Continue? then Exec(c, s.w, d, p) else s.o;
      if s.Continue? {
        ExecInner(c, s.w, d, p);
        InnerComposes(b, s.w, o.w);
      }
      Enclosed(w, b, o.w, Start(c, w, d, manual).w, d, ok);
    } else {
      StartRefused(c, w, d, manual);
      if d in w.units {
        var w1 := w.Note(Enter(d));
        FreeIsInner(w1, w1);
        Enclosed(w, w1, w1, Start(c, w, d, manual).w, d, ok);
      } else {
        NothingNested(w, Start(c, w, d, manual).w);
      }
    }
  }

  lemma NothingNested(w: World, w': World)
    requires w'.log == w.log
    ensures Inner(w, w') && Outer(w, w', [])
  {
    assert w'.log[|w.log|..] == [];
  }

  lemma Enclosed(w: World, b: World, w1: World, w': World, d: Name, ok: bool)
    requires b.log == w.log + [Enter(d)] && Inner(b, w1) && w'.log == w1.log + [Returned(d, ok)]
    ensures Inner(w, w') && Outer(w, w', [d])
  {
    var inside := w1.log[|b.log|..];
    assert w'.log[|w.log|..] == [Enter(d)] + (inside + [Returned(d, ok)]);
    forall depth: nat
      ensures Ends(w'.log[|w.log|..], depth) == depth
      ensures Outermost(w'.log[|w.log|..], depth) == if depth == 0 then [d] else []
    {
      EnclosedAt(inside, d, ok, depth);
    }
  }

  lemma EnclosedAt(inside: History, d: Name, ok: bool, depth: nat)
    requires Ends(inside, depth + 1) == depth + 1 && Outermost(inside, depth + 1) == []
    ensures var log := [Enter(d)] + (inside + [Returned(d, ok)]);
            Ends(log, depth) == depth && Outermost(log, depth) == if depth == 0 then [d] else []
  {
    var last := [Returned(d, ok)];
    NestConcat([Enter(d)], inside + last, depth);
    NestConcat(inside, last, depth + 1);
    assert last[1..] == [] && [Enter(d)][1..] == [];
  }

  /** Those of the wanted units that are loaded, in the order given. */
  function LoadedOf(w: World, wanted: seq<Name>): seq<Name> {
    if wanted == [] then [] else (if wanted[0] in w.units then [wanted[0]] else []) + LoadedOf(w, wanted[1..])
  }

  /** The outermost starts of a boot are those of the loaded wanted units, each as often as it is wanted and in the
      given order. */
  lemma {:induction false} BootEnters(c: Config, w: World, wanted: seq<Name>)
    requires Usable(c, w)
    ensures Outer(w, StartEach(c, w, wanted), LoadedOf(w, wanted))
    decreases |wanted|
  {
    hide Outer;
    if wanted == [] {
      NothingNested(w, w);
    } else {
      var w1 := Start(c, w, wanted[0], true).w;
      StartNested(c, w, wanted[0], true);
      StartExtends(c, w, wanted[0], true);
      BootEnters(c, w1, wanted[1..]);
      SameLoaded(w, w1, wanted[1..]);
      var first := if wanted[0] in w.units then [wanted[0]] else [];
      OuterComposes(w, w1, StartEach(c, w1, wanted[1..]), first, LoadedOf(w, wanted[1..]));
    }
  }

  lemma {:induction false} SameLoaded(w: World, w': World, wanted: seq<Name>)
    requires w'.units.Keys == w.units.Keys
    ensures LoadedOf(w', wanted) == LoadedOf(w, wanted)
  {
    if wanted != [] {
      SameLoaded(w, w', wanted[1..]);
    }
  }
}
