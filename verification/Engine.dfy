/** The service engine: what one start, stop or restart call does to the units when nothing else runs.

    `start` is straight-line code with early returns, so it is written here as a program: a list of
    instructions, run by `Exec`, in which a dependency is started by a recursive call of `Start`.
    Everything the engine asks of the outside world (did this command succeed, could the log be opened, in
    which order does a map iterate) is answered by an oracle that may depend on the whole history so far. */
module Engine {
  import opened Graph

  type Name = string

  datatype DaemonState = Running | Stopped | Starting | Stopping | Restarting

  datatype Phase = ExecCondition | ExecStartPre | ExecStart | ExecStartPost | ExecStopPre | ExecStop | ExecStopPost

  datatype Relation = Requires | BindsTo | Wants | Upholds | Conflicts | UpheldBy | BoundBy | ConsistsOf

  /** The part of a unit file the engine reads. */
  datatype Def = Def(
    deps: map<Relation, set<Name>>,
    oneshot: bool,
    conditions: seq<string>,
    startPre: seq<string>,
    start: seq<string>,
    startPost: seq<string>,
    stopPre: seq<string>,
    stop: seq<string>,
    stopPost: seq<string>,
    restart: string,
    successAction: string,
    failureAction: string)
  {
    function Names(r: Relation): set<Name> {
      if r in deps then deps[r] else {}
    }
    /** Dependencies whose failure aborts the start. */
    function Hard(): set<Name> {
      Names(Requires) + Names(BindsTo)
    }
    function StartEdges(): set<Name> {
      Hard() + Names(Wants) + Names(Upholds)
    }
  }

  /** What the engine asks of the world: run a command line, open the unit's log, resolve environment
      files, user and group, see whether the old processes have gone within the stop timeout, or run the
      system's own poweroff command. */
  datatype Act = Command(phase: Phase, line: string) | OpenLog | ResolveEnvironment | AwaitExit | PowerOff

  /** `running` is the set of units in state Running at that moment. */
  datatype Event =
    | Enter(d: Name)
    | Did(d: Name, act: Act, running: set<Name>)
    | Returned(d: Name, ok: bool)

  type History = seq<Event>

  /** The mutable part of a unit; `failed` says that stateError is set. */
  datatype Unit = Unit(state: DaemonState, failed: bool, manual: bool, remain: bool)

  datatype World = World(units: map<Name, Unit>, masked: set<Name>, shutdown: bool, log: History)
  {
    predicate IsState(d: Name, s: DaemonState) {
      d in units && units[d].state == s
    }
    function RunningUnits(): set<Name> {
      set d | d in units && units[d].state == Running
    }
    function Update(d: Name, u: Unit): (w: World)
      requires d in units
    {
      this.(units := units[d := u])
    }
    function SetState(d: Name, s: DaemonState): World
      requires d in units
    {
      Update(d, units[d].(state := s))
    }
    function SetFailed(d: Name, b: bool): World
      requires d in units
    {
      Update(d, units[d].(failed := b))
    }
    /** How a start gives up: Stopped, with an error recorded. */
    function Fail(d: Name): World
      requires d in units
    {
      Update(d, units[d].(state := Stopped, failed := true))
    }
    function Note(e: Event): World {
      this.(log := log + [e])
    }
  }

  /** The loaded units and the oracles. */
  datatype Config = Config(
    defs: map<Name, Def>,
    outcome: (History, Name, Act) -> bool,
    order: (History, Name, Relation) -> seq<Name>)
  {
    ghost function Edges(): Digraph<Name> {
      map d | d in defs :: defs[d].StartEdges()
    }
    /** Every answer of the order oracle lists exactly the names of the relation, each once. */
    ghost predicate Valid() {
      && Acyclic(Edges())
      && forall h, d, r :: d in defs ==> IsOrder(order(h, d, r), defs[d].Names(r))
    }
  }

  /** s lists exactly the names, each once. */
  ghost predicate IsOrder<T(!new)>(s: seq<T>, names: set<T>) {
    && |s| == |names|
    && forall x :: x in s <==> x in names
  }

  /** The world after a first reload: every unit Stopped, nothing started by hand, an empty history. */
  function InitialWorld(c: Config, masked: set<Name>, remaining: set<Name>): World {
    World(map d | d in c.defs :: Unit(Stopped, false, false, d in remaining), c.defs.Keys * masked, false, [])
  }

  datatype Outcome = Outcome(w: World, ok: bool)

  datatype Instr =
    | Prepare
    | AttachLog
    | Condition(line: string)
    | Depend(dep: Name, hard: bool)
    | Conflict(other: Name)
    | Run(phase: Phase, line: string)
    | Finish
  {
    /** Instructions that startCheckAbortState precedes. */
    predicate Guarded() {
      !Prepare? && !AttachLog? && !Finish?
    }
  }

  type Program = seq<Instr>

  /** A leading '-' on a command line means its failure is ignored. */
  predicate Fatal(line: string) {
    !(line != "" && line[0] == '-')
  }

  function Bare(line: string): string {
    if Fatal(line) then line else line[1..]
  }

  function Conditions(lines: seq<string>): Program {
    seq(|lines|, i requires 0 <= i < |lines| => Condition(lines[i]))
  }

  function Depends(names: seq<Name>, hard: bool): Program {
    seq(|names|, i requires 0 <= i < |names| => Depend(names[i], hard))
  }

  function ConflictsWith(names: seq<Name>): Program {
    seq(|names|, i requires 0 <= i < |names| => Conflict(names[i]))
  }

  function Runs(phase: Phase, lines: seq<string>): Program {
    seq(|lines|, i requires 0 <= i < |lines| => Run(phase, lines[i]))
  }

  function DependPart(c: Config, h: History, d: Name): Program {
    Depends(c.order(h, d, Requires), true) + (Depends(c.order(h, d, BindsTo), true) +
    (Depends(c.order(h, d, Wants), false) + Depends(c.order(h, d, Upholds), false)))
  }

  function CommandPart(def: Def): Program {
    Runs(ExecStartPre, def.startPre) + (Runs(ExecStart, def.start) + (Runs(ExecStartPost, def.startPost) + [Finish]))
  }

  /** The body of `start` after the cleanup of the previous run. */
  function ProgramOf(c: Config, h: History, d: Name): Program
    requires d in c.defs
  {
    [Prepare, AttachLog] + (Conditions(c.defs[d].conditions) + (DependPart(c, h, d) +
    (ConflictsWith(c.order(h, d, Conflicts)) + CommandPart(c.defs[d]))))
  }

  /** Every dependency a program starts is a start edge of its unit. */
  ghost predicate Legal(c: Config, d: Name, p: Program) {
    forall i :: 0 <= i < |p| && p[i].Depend? ==> Edge(c.Edges(), d, p[i].dep)
  }

  /** Asks the world to do something; the answer may depend on everything that happened before. */
  function Perform(c: Config, w: World, d: Name, act: Act): (o: Outcome)
    ensures Extends(w, o.w) && o.w.units == w.units
  {
    Outcome(w.Note(Did(d, act, w.RunningUnits())), c.outcome(w.log, d, act))
  }

  /** startCheckAbortState. */
  predicate Aborted(w: World, d: Name) {
    w.shutdown || w.IsState(d, Stopping)
  }

  /** What no call changes: the loaded units, the shutdown flag, the masks and the past. */
  ghost predicate Extends(w: World, w': World) {
    && w'.units.Keys == w.units.Keys
    && w'.shutdown == w.shutdown
    && w'.masked == w.masked
    && w.log <= w'.log
  }

  lemma ExtendsTransitive(w0: World, w1: World, w2: World)
    requires Extends(w0, w1) && Extends(w1, w2)
    ensures Extends(w0, w2)
  {
  }

  /** Only d's own record changed, and not its state: what running stop commands does. */
  ghost predicate Records(w: World, w': World, d: Name) {
    && Extends(w, w')
    && forall x :: x in w.units ==> w'.units[x].state == w.units[x].state && (x != d ==> w'.units[x] == w.units[x])
  }

  lemma RecordsCompose(w0: World, w1: World, w2: World, d: Name)
    requires Records(w0, w1, d) && Records(w1, w2, d)
    ensures Records(w0, w2, d)
  {
  }

  /** An event, after which an error may be recorded. */
  lemma RecordsAct(w: World, w1: World, d: Name)
    requires Extends(w, w1) && w1.units == w.units && d in w.units
    ensures Records(w, w1, d) && Records(w, w1.SetFailed(d, true), d)
  {
  }

  /** ExecStopPre, ExecStop and ExecStopPost lines: a failing one is recorded and the next one still runs. */
  function RunStopLines(c: Config, w: World, d: Name, phase: Phase, lines: seq<string>): (w': World)
    requires d in w.units
    ensures Records(w, w', d)
    decreases |lines|
  {
    if lines == [] then w
    else
      var o := Perform(c, w, d, Command(phase, lines[0]));
      var w1 := if o.ok then o.w else o.w.SetFailed(d, true);
      RecordsAct(w, o.w, d);
      var w2 := RunStopLines(c, w1, d, phase, lines[1..]);
      RecordsCompose(w, w1, w2, d);
      w2
  }

  /** The stop commands in order, then the wait for the processes to go. */
  function RunStop(c: Config, w: World, d: Name): (w': World)
    requires w.units.Keys == c.defs.Keys && d in w.units
    ensures Records(w, w', d)
  {
    hide RunStopLines, Perform;
    var w1 := RunStopLines(c, w, d, ExecStopPre, c.defs[d].stopPre);
    var w2 := RunStopLines(c, w1, d, ExecStop, c.defs[d].stop);
    RecordsCompose(w, w1, w2, d);
    var w3 := RunStopLines(c, w2, d, ExecStopPost, c.defs[d].stopPost);
    RecordsCompose(w, w2, w3, d);
    var gone := Perform(c, w3, d, AwaitExit);
    RecordsAct(w3, gone.w, d);
    var w4 := if gone.ok then gone.w else gone.w.SetFailed(d, true);
    RecordsCompose(w, w3, w4, d);
    w4
  }

  /** Only d's own record changed. */
  ghost predicate OwnOnly(w: World, w': World, d: Name) {
    Extends(w, w') && forall x :: x in w.units && x != d ==> w'.units[x] == w.units[x]
  }

  lemma RecordsOwnOnly(w: World, w1: World, w': World, d: Name)
    requires d in w.units && (w1 == w || w1 == w.SetState(d, Stopping)) && Records(w1, w', d)
    ensures OwnOnly(w, w', d) && OwnOnly(w, w'.SetState(d, Stopped), d)
  {
  }

  /** `stop`; the cleanup inside `start` passes announce == false. */
  function Stop(c: Config, w: World, d: Name, announce: bool): (o: Outcome)
    requires w.units.Keys == c.defs.Keys
    ensures Extends(w, o.w)
    ensures forall x :: x in w.units && x != d ==> o.w.units[x] == w.units[x]
    ensures o.ok && d in w.units ==> o.w.IsState(d, Stopped)
  {
    hide RunStop, Records, Perform;
    if d !in w.units then Outcome(w, true)
    else if d in w.masked then Outcome(w, false)
    else
      var w1 := if !w.IsState(d, Restarting) || announce then w.SetState(d, Stopping) else w;
      var logged := Perform(c, w1, d, OpenLog);
      RecordsAct(w1, logged.w, d);
      if !logged.ok then
        RecordsOwnOnly(w, w1, logged.w.SetFailed(d, true), d);
        Outcome(logged.w.SetFailed(d, true), false)
      else
        var w2 := RunStop(c, logged.w, d);
        RecordsCompose(w1, logged.w, w2, d);
        RecordsOwnOnly(w, w1, w2, d);
        Outcome(w2.SetState(d, Stopped), true)
  }

  /** A stop that can open its log. */
  lemma StopUnfolds(c: Config, w: World, d: Name, announce: bool)
    requires w.units.Keys == c.defs.Keys && d in w.units && d !in w.masked
    requires c.outcome(w.log, d, OpenLog)
    ensures var w1 := if !w.IsState(d, Restarting) || announce then w.SetState(d, Stopping) else w;
            Stop(c, w, d, announce) ==
            Outcome(RunStop(c, Perform(c, w1, d, OpenLog).w, d).SetState(d, Stopped), true)
  {
  }

  /** `start`. A unit that is not loaded is a nil pointer, on which start succeeds at once. */
  function Start(c: Config, w: World, d: Name, manual: bool): (o: Outcome)
    requires c.Valid() && w.units.Keys == c.defs.Keys
    ensures Extends(w, o.w)
    decreases Rank(c.Edges(), d), 1, 0
  {
    if d !in w.units then Outcome(w, true)
    else
      var o := StartLoaded(c, w.Note(Enter(d)), d, manual);
      Outcome(o.w.Note(Returned(d, o.ok)), o.ok)
  }

  function StartLoaded(c: Config, w: World, d: Name, manual: bool): (o: Outcome)
    requires c.Valid() && w.units.Keys == c.defs.Keys && d in w.units
    ensures Extends(w, o.w)
    decreases Rank(c.Edges(), d), 0, |ProgramOf(c, w.log, d)| + 1
  {
    if w.shutdown then Outcome(w, false)
    else if w.IsState(d, Starting) || w.IsState(d, Stopping) then Outcome(w, true)
    else if d in w.masked then Outcome(w, false)
    else
      if w.IsState(d, Running) then Outcome(Claim(w, d, manual), true)
      else
        ProgramLegal(c, w.log, d);
        match CleanUp(c, Begin(c, w, d, manual), d)
        case Return(o) => o
        case Continue(w2) =>
          var o := Exec(c, w2, d, ProgramOf(c, w.log, d));
          ExtendsTransitive(w, w2, o.w);
          o
  }

  /** A unit once started by hand stays marked as such. */
  function Claim(w: World, d: Name, manual: bool): (w': World)
    requires d in w.units
  {
    w.Update(d, w.units[d].(manual := w.units[d].manual || manual))
  }

  /** The unit enters Starting (a restart keeps Restarting); a oneshot unit stays up when it exits. */
  function Begin(c: Config, w: World, d: Name, manual: bool): (w': World)
    requires w.units.Keys == c.defs.Keys && d in w.units
    ensures Extends(w, w') && w'.log == w.log
    ensures forall x :: x in w.units && x != d ==> w'.units[x] == w.units[x]
    ensures w'.units[d].state == if w.units[d].state == Restarting then Restarting else Starting
  {
    var u := w.units[d];
    w.Update(d, u.(state := if u.state == Restarting then Restarting else Starting,
                   manual := u.manual || manual,
                   remain := u.remain || c.defs[d].oneshot))
  }

  /** What is left of the previous run is stopped first. */
  function CleanUp(c: Config, w: World, d: Name): (s: StepResult)
    requires w.units.Keys == c.defs.Keys && d in w.units
    ensures Extends(w, s.After())
    ensures s.Continue? ==> !w.shutdown && s.w.IsState(d, Stopped) && !s.w.units[d].failed
    ensures forall x :: x in w.units && x != d ==> s.After().units[x] == w.units[x]
  {
    if Aborted(w, d) then Return(Outcome(w, false))
    else
      var o := Stop(c, w, d, false);
      if Aborted(o.w, d) then Return(Outcome(o.w, false))
      else if !o.ok then Return(Outcome(o.w.Fail(d), false))
      else Continue(o.w.SetFailed(d, false))
  }

  lemma CleanUpUnfolds(c: Config, w: World, d: Name)
    requires w.units.Keys == c.defs.Keys && d in w.units && d !in w.masked && !w.shutdown
    requires w.units[d].state in {Starting, Restarting} && c.outcome(w.log, d, OpenLog)
    ensures var w1 := if !w.IsState(d, Restarting) then w.SetState(d, Stopping) else w;
            CleanUp(c, w, d) ==
            Continue(RunStop(c, Perform(c, w1, d, OpenLog).w, d).SetState(d, Stopped).SetFailed(d, false))
  {
    StopUnfolds(c, w, d, false);
  }

  function Exec(c: Config, w: World, d: Name, p: Program): (o: Outcome)
    requires c.Valid() && w.units.Keys == c.defs.Keys && d in w.units && Legal(c, d, p)
    ensures Extends(w, o.w)
    decreases Rank(c.Edges(), d), 0, |p|
  {
    if p == [] then Outcome(w, true)
    else if p[0].Guarded() && Aborted(w, d) then Outcome(w, false)
    else if p[0].Finish? then
      if w.IsState(d, Stopping) then Outcome(w, false)
      else Outcome(w.Update(d, w.units[d].(state := Running, failed := false)), true)
    else
      var s := Step(c, w, d, p[0]);
      match s
      case Return(o) => o
      case Continue(w') =>
        var o := Exec(c, w', d, p[1..]);
        ExtendsTransitive(w, w', o.w);
        o
  }

  datatype StepResult = Continue(w: World) | Return(o: Outcome)
  {
    ghost function After(): World {
      if Continue? then w else o.w
    }
  }

  /** A start command; if it fails and its failure counts, the unit is stopped and the start gives up. */
  function RunCommand(c: Config, w: World, d: Name, phase: Phase, line: string): (s: StepResult)
    requires w.units.Keys == c.defs.Keys && d in w.units
    ensures Extends(w, s.After())
  {
    var o := Perform(c, w, d, Command(phase, Bare(line)));
    if o.ok || !Fatal(line) then Continue(o.w)
    else
      var stopped := Stop(c, o.w, d, true).w;
      ExtendsTransitive(w, o.w, stopped);
      Return(Outcome(stopped.Fail(d), false))
  }

  /** One instruction other than Finish. */
  function Step(c: Config, w: World, d: Name, i: Instr): (s: StepResult)
    requires c.Valid() && w.units.Keys == c.defs.Keys && d in w.units && Legal(c, d, [i])
    ensures Extends(w, s.After())
    decreases Rank(c.Edges(), d), 0, 0
  {
    hide RunCommand, Perform, Stop, Start;
    match i
    case Prepare =>
      var o := Perform(c, w, d, ResolveEnvironment);
      if o.ok then Continue(o.w) else Return(Outcome(o.w, false))
    case AttachLog =>
      var o := Perform(c, w, d, OpenLog);
      if o.ok then Continue(o.w) else Return(Outcome(o.w.Fail(d), false))
    case Condition(line) =>
      var o := Perform(c, w, d, Command(ExecCondition, line));
      if o.ok then Continue(o.w)
      else Return(Outcome(o.w.Update(d, o.w.units[d].(state := Stopped, failed := false)), true))
    case Depend(r, hard) =>
      assert Edge(c.Edges(), d, [i][0].dep);
      RankDecreases(c.Edges(), d, r);
      var o := Start(c, w, r, false);
      if hard && !o.ok then Return(Outcome(o.w.Fail(d), false)) else Continue(o.w)
    case Conflict(x) =>
      var o := Stop(c, w, x, true);
      if !o.ok then Return(Outcome(o.w.Fail(d), false)) else Continue(o.w)
    case Run(phase, line) =>
      RunCommand(c, w, d, phase, line)
    case Finish => Continue(w)
  }

  /** `Restart`. */
  function Restart(c: Config, w: World, d: Name): (o: Outcome)
    requires c.Valid() && w.units.Keys == c.defs.Keys && d in w.units
    ensures Extends(w, o.w)
  {
    if d in w.masked then Outcome(w, false)
    else if w.units[d].state in {Restarting, Stopping, Starting} then Outcome(w, false)
    else
      var o := Stop(c, w.SetState(d, Restarting), d, true);
      if !o.ok then o
      else if o.w.IsState(d, Stopping) then Outcome(o.w, false)
      else Start(c, o.w, d, true)
  }

  /** A start that gets past its entry checks is a cleanup followed by the program. */
  lemma StartUnfolds(c: Config, w: World, d: Name, manual: bool)
    requires c.Valid() && w.units.Keys == c.defs.Keys && d in w.units
    requires !w.shutdown && d !in w.masked && w.units[d].state in {Stopped, Restarting}
    ensures Legal(c, d, ProgramOf(c, w.log + [Enter(d)], d))
    ensures var w1 := w.Note(Enter(d));
            var cleaned := CleanUp(c, Begin(c, w1, d, manual), d);
            var o := if cleaned.Return? then cleaned.o else Exec(c, cleaned.w, d, ProgramOf(c, w1.log, d));
            Start(c, w, d, manual) == Outcome(o.w.Note(Returned(d, o.ok)), o.ok)
  {
    ProgramLegal(c, w.log + [Enter(d)], d);
  }

  lemma StartExtends(c: Config, w: World, d: Name, manual: bool)
    requires c.Valid() && w.units.Keys == c.defs.Keys
    ensures Extends(w, Start(c, w, d, manual).w)
  {
  }

  /** A start that does not get past its entry checks changes no state and runs nothing. */
  lemma StartRefused(c: Config, w: World, d: Name, manual: bool)
    requires c.Valid() && w.units.Keys == c.defs.Keys
    requires !(d in w.units && !w.shutdown && d !in w.masked && w.units[d].state in {Stopped, Restarting})
    ensures var o := Start(c, w, d, manual);
            && (forall x :: x in w.units ==> o.w.units[x].state == w.units[x].state)
            && o.w.log == if d in w.units then w.log + [Enter(d)] + [Returned(d, o.ok)] else w.log
  {
  }

  /** A program goes on with its tail after an instruction that lets it continue. */
  lemma ExecContinues(c: Config, w: World, d: Name, p: Program)
    requires c.Valid() && w.units.Keys == c.defs.Keys && d in w.units && p != [] && Legal(c, d, p) && Legal(c, d, [p[0]])
    requires !(p[0].Guarded() && Aborted(w, d)) && !p[0].Finish? && Step(c, w, d, p[0]).Continue?
    ensures Legal(c, d, p[1..])
    ensures Exec(c, w, d, p) == Exec(c, Step(c, w, d, p[0]).w, d, p[1..])
  {
  }

  /** A program ends where an instruction does not let it continue. */
  lemma ExecReturns(c: Config, w: World, d: Name, p: Program)
    requires c.Valid() && w.units.Keys == c.defs.Keys && d in w.units && p != [] && Legal(c, d, p) && Legal(c, d, [p[0]])
    requires !(p[0].Guarded() && Aborted(w, d)) && !p[0].Finish? && Step(c, w, d, p[0]).Return?
    ensures Exec(c, w, d, p) == Step(c, w, d, p[0]).o
  {
  }

  lemma LegalConcat(c: Config, d: Name, p: Program, q: Program)
    requires Legal(c, d, p) && Legal(c, d, q)
    ensures Legal(c, d, p + q)
  {
  }

  lemma LegalDepends(c: Config, h: History, d: Name, r: Relation, hard: bool)
    requires c.Valid() && d in c.defs && c.defs[d].Names(r) <= c.defs[d].StartEdges()
    ensures Legal(c, d, Depends(c.order(h, d, r), hard))
  {
    assert IsOrder(c.order(h, d, r), c.defs[d].Names(r));
  }

  lemma ProgramLegal(c: Config, h: History, d: Name)
    requires c.Valid() && d in c.defs
    ensures Legal(c, d, ProgramOf(c, h, d))
  {
    var a, b := Depends(c.order(h, d, Requires), true), Depends(c.order(h, d, BindsTo), true);
    var e, f := Depends(c.order(h, d, Wants), false), Depends(c.order(h, d, Upholds), false);
    LegalDepends(c, h, d, Requires, true);
    LegalDepends(c, h, d, BindsTo, true);
    LegalDepends(c, h, d, Wants, false);
    LegalDepends(c, h, d, Upholds, false);
    hide Legal;
    LegalConcat(c, d, e, f);
    LegalConcat(c, d, b, e + f);
    LegalConcat(c, d, a, b + (e + f));
    OthersLegal(c, h, d);
    var rest := ConflictsWith(c.order(h, d, Conflicts)) + CommandPart(c.defs[d]);
    LegalConcat(c, d, DependPart(c, h, d), rest);
    LegalConcat(c, d, Conditions(c.defs[d].conditions), DependPart(c, h, d) + rest);
    LegalConcat(c, d, [Prepare, AttachLog], Conditions(c.defs[d].conditions) + (DependPart(c, h, d) + rest));
  }

  lemma OthersLegal(c: Config, h: History, d: Name)
    requires d in c.defs
    ensures Legal(c, d, ConflictsWith(c.order(h, d, Conflicts)) + CommandPart(c.defs[d]))
    ensures Legal(c, d, Conditions(c.defs[d].conditions)) && Legal(c, d, [Prepare, AttachLog])
  {
  }
}
