/** With Conflicts a unit can run its block twice in one start call: it is brought up by one relation, stopped by the
    conflict of a unit started next, and brought up again by a later relation. */
module EngineRerun {
  import opened Graph
  import opened Engine
  import opened EngineActs
  import opened EngineSettled
  import opened EngineOrder
  import opened EngineSuccess
  import opened EngineBlock

  /** A unit without conditions and commands. */
  predicate NoCommands(def: Def) {
    def.conditions == [] && def.startPre == [] && def.start == [] && def.startPost == []
  }

  /** r requires a, wants b and upholds a; b conflicts with a; a stands alone; every answer is yes. */
  ghost predicate Triangle(c: Config, r: Name, b: Name, a: Name) {
    && c.Valid() && (forall h, d, act :: c.outcome(h, d, act)) && {r, b, a} <= c.defs.Keys && r != b && b != a && a != r
    && NoCommands(c.defs[r]) && NoCommands(c.defs[b])
    && c.defs[r].Names(Requires) == {a} && c.defs[r].Names(BindsTo) == {} && c.defs[r].Names(Wants) == {b}
    && c.defs[r].Names(Upholds) == {a} && c.defs[r].Names(Conflicts) == {}
    && c.defs[b].StartEdges() == {} && c.defs[b].Names(Conflicts) == {a}
    && c.defs[a].StartEdges() == {} && c.defs[a].Names(Conflicts) == {}
  }

  lemma OrderOfOne(s: seq<Name>, x: Name)
    requires IsOrder(s, {x})
    ensures s == [x]
  {
    assert s[0] in s;
  }

  lemma OrderOfNone(s: seq<Name>)
    requires IsOrder(s, {})
    ensures s == []
  {
  }

  lemma NoCommandsRun(def: Def)
    requires NoCommands(def)
    ensures Conditions(def.conditions) == [] && CommandPart(def) == [Finish]
  {
  }

  lemma ProgramOfB(c: Config, h: History, r: Name, b: Name, a: Name)
    requires Triangle(c, r, b, a)
    ensures ProgramOf(c, h, b) == [Prepare, AttachLog, Conflict(a), Finish]
  {
    OrderOfNone(c.order(h, b, Requires));
    OrderOfNone(c.order(h, b, BindsTo));
    OrderOfNone(c.order(h, b, Wants));
    OrderOfNone(c.order(h, b, Upholds));
    OrderOfOne(c.order(h, b, Conflicts), a);
    NoCommandsRun(c.defs[b]);
    assert DependPart(c, h, b) == [];
    assert ConflictsWith([a]) == [Conflict(a)];
  }

  lemma ProgramOfR(c: Config, h: History, r: Name, b: Name, a: Name)
    requires Triangle(c, r, b, a)
    ensures ProgramOf(c, h, r) == [Prepare, AttachLog, Depend(a, true), Depend(b, false), Depend(a, false), Finish]
  {
    OrderOfOne(c.order(h, r, Requires), a);
    OrderOfNone(c.order(h, r, BindsTo));
    OrderOfOne(c.order(h, r, Wants), b);
    OrderOfOne(c.order(h, r, Upholds), a);
    OrderOfNone(c.order(h, r, Conflicts));
    NoCommandsRun(c.defs[r]);
    assert Depends([a], true) == [Depend(a, true)] && Depends([b], false) == [Depend(b, false)];
    assert Depends([a], false) == [Depend(a, false)] && Depends([], true) == [];
    assert DependPart(c, h, r) == [Depend(a, true), Depend(b, false), Depend(a, false)];
    assert ConflictsWith([]) == [];
  }

  /** Entry, environment and log of a start that is let through: only its own unit changes, and it is Stopped. */
  lemma Opening(c: Config, w: World, d: Name, manual: bool, p: Program) returns (w2: World)
    requires c.Valid() && (forall h, x, act :: c.outcome(h, x, act)) && w.units.Keys == c.defs.Keys && !w.shutdown
    requires w.IsState(d, Stopped) && d !in w.masked && ProgramOf(c, w.log + [Enter(d)], d) == [Prepare, AttachLog] + p
    ensures Legal(c, d, p) && Extends(w, w2) && w2.IsState(d, Stopped)
    ensures forall x :: x in w.units && x != d ==> w2.units[x] == w.units[x]
    ensures forall x :: RanSince(w, w2, x) == []
    ensures var o := Exec(c, w2, d, p); Start(c, w, d, manual) == Outcome(o.w.Note(Returned(d, o.ok)), o.ok)
  {
    var h := w.log + [Enter(d)];
    var q := ProgramOf(c, h, d);
    StartUnfolds(c, w, d, manual);
    var b := Begin(c, w.Note(Enter(d)), d, manual);
    CleanUpUnfolds(c, b, d);
    var w0 := CleanUp(c, b, d).w;
    w2 := PrepareAndAttach(c, w0, d, p);
    forall x
      ensures RanSince(w, w2, x) == []
    {
      EntryRan(c, w, d, manual, x);
      RanSinceComposes(w, w0, w2, x);
    }
  }

  lemma PrepareAndAttach(c: Config, w: World, d: Name, p: Program) returns (w2: World)
    requires c.Valid() && (forall h, x, act :: c.outcome(h, x, act)) && w.units.Keys == c.defs.Keys
    requires w.IsState(d, Stopped) && Legal(c, d, [Prepare, AttachLog] + p)
    ensures Legal(c, d, p) && Extends(w, w2) && w2.units == w.units && forall x :: RanSince(w, w2, x) == []
    ensures Exec(c, w, d, [Prepare, AttachLog] + p) == Exec(c, w2, d, p)
  {
    var q := [Prepare, AttachLog] + p;
    ExecContinues(c, w, d, q);
    var w1 := Step(c, w, d, Prepare).w;
    assert q[1..] == [AttachLog] + p;
    ExecContinues(c, w1, d, q[1..]);
    assert q[1..][1..] == p;
    w2 := Step(c, w1, d, AttachLog).w;
    forall x
      ensures RanSince(w, w2, x) == []
    {
      OneActRan(c, w, d, Prepare, x);
      OneActRan(c, w1, d, AttachLog, x);
      RanSinceComposes(w, w1, w2, x);
    }
  }

  ghost predicate Quiescent(c: Config, w: World) {
    w.units.Keys == c.defs.Keys && !w.shutdown && w.masked == {} && Settled(w)
  }

  lemma StartOfA(c: Config, w: World, r: Name, b: Name, a: Name)
    requires Triangle(c, r, b, a) && Quiescent(c, w) && w.IsState(a, Stopped)
    ensures var o := Start(c, w, a, false);
            && o.ok && Quiescent(c, o.w) && o.w.IsState(a, Running)
            && RanSince(w, o.w, a) == Block(c.defs[a])
            && forall x :: x != a && w.IsState(x, Stopped) ==> o.w.IsState(x, Stopped)
  {
    hide Start, Ran;
    NothingBelow(c, a);
    assert Grown(c, w, w) && AllSucceed(c, w, a);
    StartAll(c, w, w, a, false);
    StartRunsBlock(c, w, a, false);
    StartSettles(c, w, a, false);
    StartRaises(c, w, a, false);
  }

  /** A unit without dependencies reaches nothing but itself. */
  lemma NothingBelow(c: Config, a: Name)
    requires a in c.defs && c.defs[a].StartEdges() == {}
    ensures forall x :: !Reaches(c.Edges(), a, x)
    ensures forall w, x :: Reached(c, w, a, x) ==> x == a
  {
    forall x | Reaches(c.Edges(), a, x)
      ensures false
    {
      var y := FirstEdge(c.Edges(), a, x);
    }
    forall w, x | Reached(c, w, a, x)
      ensures x == a
    {
      ReachedUnfolds(c, w, a, x);
    }
  }

  lemma ConflictStops(c: Config, w: World, r: Name, b: Name, a: Name)
    requires Triangle(c, r, b, a) && Quiescent(c, w) && w.IsState(b, Stopped)
    ensures Start(c, w, b, false).w.IsState(a, Stopped)
  {
    hide Start, RunStop;
    ProgramOfB(c, w.log + [Enter(b)], r, b, a);
    var p := [Conflict(a), Finish];
    var w2 := Opening(c, w, b, false, p);
    ExecContinues(c, w2, b, p);
    assert p[1..] == [Finish];
    assert Step(c, w2, b, Conflict(a)).w.IsState(a, Stopped);
  }

  lemma StartOfB(c: Config, w: World, r: Name, b: Name, a: Name)
    requires Triangle(c, r, b, a) && Quiescent(c, w) && w.IsState(b, Stopped)
    ensures var w' := Start(c, w, b, false).w;
            && Quiescent(c, w') && w'.IsState(a, Stopped) && RanSince(w, w', a) == []
            && forall x :: x != b && w.IsState(x, Stopped) ==> w'.IsState(x, Stopped)
  {
    hide Start, Ran;
    NothingBelow(c, b);
    ConflictStops(c, w, r, b, a);
    StartRan(c, w, b, false, a);
    StartSettles(c, w, b, false);
    StartRaises(c, w, b, false);
    StartExtends(c, w, b, false);
    forall x | x != b && w.IsState(x, Stopped)
      ensures Start(c, w, b, false).w.IsState(x, Stopped)
    {
      assert !Start(c, w, b, false).w.IsState(x, Running);
    }
  }

  /** In one start of r, a runs its whole block twice. */
  lemma RunsTwice(c: Config, w: World, r: Name, b: Name, a: Name, manual: bool)
    requires Triangle(c, r, b, a) && Quiescent(c, w)
    requires w.IsState(r, Stopped) && w.IsState(b, Stopped) && w.IsState(a, Stopped)
    ensures RanSince(w, Start(c, w, r, manual).w, a) == Block(c.defs[a]) + Block(c.defs[a])
  {
    hide Start, Ran;
    ProgramOfR(c, w.log + [Enter(r)], r, b, a);
    var p := [Depend(a, true), Depend(b, false), Depend(a, false), Finish];
    var w2 := Opening(c, w, r, manual, p);
    var o := Exec(c, w2, r, p);
    RelayOfThree(c, w2, r, b, a);
    RanSinceComposes(w, w2, o.w, a);
    RanNote(w, o.w, Returned(r, o.ok), a);
  }

  /** The next dependency of a unit that is on its way up. */
  lemma NextDependency(c: Config, w: World, r: Name, p: Program, rest: Program)
    requires c.Valid() && w.units.Keys == c.defs.Keys && w.IsState(r, Stopped) && !w.shutdown
    requires Legal(c, r, p) && p != [] && p[0].Depend? && p[1..] == rest && (p[0].hard ==> Start(c, w, p[0].dep, false).ok)
    ensures Legal(c, r, rest) && Exec(c, w, r, p) == Exec(c, Start(c, w, p[0].dep, false).w, r, rest)
  {
    hide Start;
    ExecContinues(c, w, r, p);
  }

  lemma LastDependency(c: Config, w: World, r: Name, x: Name)
    requires c.Valid() && w.units.Keys == c.defs.Keys && r in w.units && Legal(c, r, [Finish])
    ensures RanSince(w, Exec(c, w, r, [Finish]).w, x) == []
  {
    RanNoLog(w, Exec(c, w, r, [Finish]).w, x);
  }

  lemma RelaySum(w: World, w1: World, w2: World, w3: World, w4: World, a: Name)
    requires w.log <= w1.log <= w2.log <= w3.log <= w4.log && RanSince(w1, w2, a) == [] && RanSince(w3, w4, a) == []
    ensures RanSince(w, w4, a) == RanSince(w, w1, a) + RanSince(w2, w3, a)
  {
    hide Ran;
    RanSinceComposes(w, w1, w2, a);
    RanSinceComposes(w, w2, w3, a);
    RanSinceComposes(w, w3, w4, a);
  }

  lemma RelayOfThree(c: Config, w: World, r: Name, b: Name, a: Name)
    requires Triangle(c, r, b, a) && Quiescent(c, w)
    requires w.IsState(r, Stopped) && w.IsState(b, Stopped) && w.IsState(a, Stopped)
    requires Legal(c, r, [Depend(a, true), Depend(b, false), Depend(a, false), Finish])
    ensures RanSince(w, Exec(c, w, r, [Depend(a, true), Depend(b, false), Depend(a, false), Finish]).w, a) ==
            Block(c.defs[a]) + Block(c.defs[a])
  {
    hide Start, Exec, RanSince, Legal;
    var rest1, rest2 := [Depend(b, false), Depend(a, false), Finish], [Depend(a, false), Finish];
    var w1 := Start(c, w, a, false).w;
    StartOfA(c, w, r, b, a);
    NextDependency(c, w, r, [Depend(a, true), Depend(b, false), Depend(a, false), Finish], rest1);
    var w2 := Start(c, w1, b, false).w;
    StartOfB(c, w1, r, b, a);
    NextDependency(c, w1, r, rest1, rest2);
    var w3 := Start(c, w2, a, false).w;
    StartOfA(c, w2, r, b, a);
    NextDependency(c, w2, r, rest2, [Finish]);
    var w4 := Exec(c, w3, r, [Finish]).w;
    LastDependency(c, w3, r, a);
    RelaySum(w, w1, w2, w3, w4, a);
  }

  // ---- such a configuration

  function Simple(deps: map<Relation, set<Name>>, start: seq<string>): Def {
    Def(deps, false, [], [], start, [], [], [], [], "", "", "")
  }

  const EXAMPLE := map[
    "r" := Simple(map[Requires := {"a"}, Wants := {"b"}, Upholds := {"a"}], []),
    "b" := Simple(map[Conflicts := {"a"}], []),
    "a" := Simple(map[], ["run"])]

  function ListOf(d: Name, k: Relation): seq<Name> {
    if d == "r" && (k == Requires || k == Upholds) then ["a"]
    else if d == "r" && k == Wants then ["b"]
    else if d == "b" && k == Conflicts then ["a"]
    else []
  }

  lemma ExampleLists(d: Name, k: Relation)
    requires d in EXAMPLE
    ensures IsOrder(ListOf(d, k), EXAMPLE[d].Names(k))
  {
  }

  lemma ExampleAcyclic(c: Config)
    requires c.defs == EXAMPLE
    ensures Acyclic(c.Edges())
  {
    forall x, y | Edge(c.Edges(), x, y)
      ensures x == "r" && y != "r"
    {
    }
    forall x
      ensures !Reaches(c.Edges(), x, x)
    {
      if Reaches(c.Edges(), x, x) {
        var y := FirstEdge(c.Edges(), x, x);
        if y != x {
          var z := FirstEdge(c.Edges(), y, x);
        }
      }
    }
  }

  lemma ExampleTriangle(c: Config)
    requires c.Valid() && c.defs == EXAMPLE && forall h, d, act :: c.outcome(h, d, act)
    ensures Triangle(c, "r", "b", "a")
  {
    assert c.defs["r"].Names(Requires) == {"a"} && c.defs["r"].Names(Wants) == {"b"} && c.defs["r"].Names(Upholds) == {"a"};
    assert c.defs["r"].Names(BindsTo) == {} && c.defs["r"].Names(Conflicts) == {};
    assert c.defs["b"].Names(Conflicts) == {"a"} && c.defs["b"].StartEdges() == {};
    assert c.defs["a"].Names(Conflicts) == {} && c.defs["a"].StartEdges() == {};
  }

  const RUN := Command(ExecStart, "run")

  lemma ExampleBlock()
    ensures Block(EXAMPLE["a"]) == [RUN]
  {
    assert WithoutDashes([]) == [];
    assert WithoutDashes(["run"]) == ["run"];
    assert Commands(ExecStart, ["run"]) == [RUN];
  }

  lemma ExampleRuns(c: Config)
    requires c.defs == EXAMPLE && Triangle(c, "r", "b", "a")
    ensures var w := InitialWorld(c, {}, {}); RanSince(w, Start(c, w, "r", true).w, "a") == [RUN, RUN]
  {
    hide Triangle, Start, Ran;
    RunsTwice(c, InitialWorld(c, {}, {}), "r", "b", "a", true);
    ExampleBlock();
  }

  /** Three units, every command succeeding: the start of r runs the command of a twice. */
  lemma RunsTwiceExample() returns (c: Config)
    ensures c.Valid() && c.defs == EXAMPLE && forall h, d, act :: c.outcome(h, d, act)
    ensures var w := InitialWorld(c, {}, {}); RanSince(w, Start(c, w, "r", true).w, "a") == [RUN, RUN]
  {
    c := Config(EXAMPLE, (h, d, act) => true, (h, d, k) => ListOf(d, k));
    ExampleAcyclic(c);
    forall h: History, d, k | d in c.defs
      ensures IsOrder(c.order(h, d, k), c.defs[d].Names(k))
    {
      ExampleLists(d, k);
    }
    ExampleTriangle(c);
    ExampleRuns(c);
  }
}
