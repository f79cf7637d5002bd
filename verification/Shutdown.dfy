/** Shutdown against concurrent starts: any number of goroutines inside nested start calls, interleaved in any
    way with each other, with stops and with the setting of the shutdown flag.

    A schedule is a list of actions; what an action leaves open (which call comes next, whether a command
    succeeds, what the unlocked read of the unit's state says) is part of the action, so a theorem over all
    schedules is a theorem over all interleavings and all outcomes. */
module Shutdown {
  import opened Engine
  import opened EngineOrder
  import opened Options

  /** Where one activation of start stands. */
  datatype Frame =
    | Entry(d: Name)                              // before the first look at the flag
    | Admitted(d: Name)                           // past it, before taking the lock
    | Entered(d: Name, p: Program)                // state written; before the next look at the flag
    | Cleaning(d: Name, p: Program)               // inside stop(false); a look at the flag follows
    | At(d: Name, p: Program, armed: bool)        // about to run p[0]; armed: its abort check has passed
    | Done(d: Name, ok: bool)                     // returning

  /** A goroutine: its nested activations, innermost last, and what it has done so far. */
  datatype Thread = Thread(stack: seq<Frame>, launched: nat, raised: nat)

  datatype System = System(state: map<Name, DaemonState>, masked: set<Name>, shutdown: bool, threads: seq<Thread>)

  /** What a step leaves open: the unit a fresh call is for, the history that fixes the map orders, whether the
      read of the unit's own state aborts, and whether the outside world says yes. */
  datatype Choice = Choice(call: Name, h: History, abort: bool, ok: bool)

  datatype Action =
    | SetFlag
    | Lower(x: Name, s: DaemonState)              // stop, restart or monitor code writing a unit's state
    | Move(t: nat, choice: Choice)

  function Top(t: Thread): Frame
    requires t.stack != []
  {
    t.stack[|t.stack| - 1]
  }

  function Replace(t: Thread, f: Frame): Thread
    requires t.stack != []
  {
    t.(stack := t.stack[..|t.stack| - 1] + [f])
  }

  /** Commands of the start path: ExecCondition, ExecStartPre, ExecStart, ExecStartPost. */
  predicate IsLaunch(i: Instr) {
    i.Condition? || i.Run?
  }

  /** A look at the flag: it ends the activation if the flag is set, or if the state read after it says so. */
  function Look(s: System, t: Thread, choice: Choice, next: Frame): Thread
    requires t.stack != []
  {
    if s.shutdown || choice.abort then Replace(t, Done(Top(t).d, false)) else Replace(t, next)
  }

  datatype Effect = Effect(thread: Thread, write: Option<DaemonState>)

  /** The body step: p[0] is run (its check, if it has one, is behind it). */
  function RunInstr(s: System, t: Thread, f: Frame, choice: Choice): Effect
    requires t.stack != [] && f == Top(t) && f.At? && f.p != []
  {
    var on := Replace(t, At(f.d, f.p[1..], false));
    var failed := Replace(t, Done(f.d, false));
    match f.p[0]
    case Prepare => Effect(if choice.ok then on else failed, None)
    case AttachLog => if choice.ok then Effect(on, None) else Effect(failed, Some(Stopped))
    case Condition(_) =>
      if choice.ok then Effect(on.(launched := t.launched + 1), None)
      else Effect(Replace(t, Done(f.d, true)).(launched := t.launched + 1), Some(Stopped))
    case Depend(r, _) => Effect(t.(stack := t.stack + [Entry(r)]), None)
    case Conflict(_) => if choice.ok then Effect(on, None) else Effect(failed, Some(Stopped))
    case Run(_, line) =>
      if choice.ok || !Fatal(line) then Effect(on.(launched := t.launched + 1), None)
      else Effect(failed.(launched := t.launched + 1), Some(Stopped))
    case Finish =>
      if f.d in s.state && s.state[f.d] != Stopping
      then Effect(Replace(t, Done(f.d, true)).(raised := t.raised + 1), Some(DaemonState.Running))
      else Effect(failed, None)
  }

  /** A returning activation: its caller goes on, or gives up if the dependency was a hard one. */
  function Return(t: Thread, f: Frame): Thread
    requires t.stack != [] && f == Top(t) && f.Done?
  {
    var below := t.stack[..|t.stack| - 1];
    if below == [] then t.(stack := [])
    else
      var g := below[|below| - 1];
      var rest := below[..|below| - 1];
      if g.At? && g.p != [] && g.p[0].Depend? then
        t.(stack := rest + [if g.p[0].hard && !f.ok then Done(g.d, false) else At(g.d, g.p[1..], false)])
      else t.(stack := below)
  }

  /** The locked section that decides whether a start begins. */
  function Begin(c: Config, s: System, t: Thread, d: Name, h: History): Effect
    requires t.stack != []
  {
    if d !in s.state || d !in c.defs then Effect(Replace(t, Done(d, true)), None)
    else if s.state[d] in {Starting, Stopping} then Effect(Replace(t, Done(d, true)), None)
    else if d in s.masked then Effect(Replace(t, Done(d, false)), None)
    else if s.state[d] == DaemonState.Running then Effect(Replace(t, Done(d, true)), None)
    else Effect(Replace(t, Entered(d, ProgramOf(c, h, d))), if s.state[d] == Restarting then None else Some(Starting))
  }

  function MoveThread(c: Config, s: System, t: Thread, choice: Choice): Effect {
    if t.stack == [] then Effect(t.(stack := [Entry(choice.call)]), None)
    else
      var f := Top(t);
      match f
      case Entry(d) => Effect(if s.shutdown then Replace(t, Done(d, false)) else Replace(t, Admitted(d)), None)
      case Admitted(d) => Begin(c, s, t, d, choice.h)
      case Entered(d, p) => Effect(Look(s, t, choice, Cleaning(d, p)), None)
      case Cleaning(d, p) => Effect(Look(s, t, choice, At(d, p, false)), None)
      case At(d, p, armed) =>
        if p == [] then Effect(Replace(t, Done(d, true)), None)
        else if p[0].Guarded() && !armed then Effect(Look(s, t, choice, At(d, p, true)), None)
        else RunInstr(s, t, f, choice)
      case Done(_, _) => Effect(Return(t, f), None)
  }

  /** The unit a thread's step may write. */
  function Target(t: Thread): Name {
    if t.stack == [] then "" else Top(t).d
  }

  function Advance(c: Config, s: System, a: Action): System {
    match a
    case SetFlag => s.(shutdown := true)
    case Lower(x, v) => if x in s.state && v in {Stopped, Stopping, Restarting} then s.(state := s.state[x := v]) else s
    case Move(i, choice) =>
      if i >= |s.threads| then s
      else
        var e := MoveThread(c, s, s.threads[i], choice);
        var d := Target(s.threads[i]);
        var state := if e.write.Some? && d in s.state then s.state[d := e.write.value] else s.state;
        s.(threads := s.threads[i := e.thread], state := state)
  }

  function AdvanceAll(c: Config, s: System, schedule: seq<Action>): System
    decreases |schedule|
  {
    if schedule == [] then s else AdvanceAll(c, Advance(c, s, schedule[0]), schedule[1..])
  }

  // ---- how much a goroutine can still do once the flag is set

  /** 1 if the thread has a command whose abort check is already behind it. */
  function Armed(t: Thread): nat {
    if t.stack != [] && Top(t).At? && Top(t).armed && Top(t).p != [] && IsLaunch(Top(t).p[0]) then 1 else 0
  }

  /** No look at the flag is left before the end of the program. */
  ghost predicate Unchecked(f: Frame) {
    f.At? && forall i :: i in (if f.armed && f.p != [] then f.p[1..] else f.p) ==> !i.Guarded()
  }

  ghost function Free(t: Thread): nat {
    if t.stack != [] && Unchecked(Top(t)) then 1 else 0
  }

  /** A suffix of some program of d. */
  ghost predicate Suffix(c: Config, d: Name, p: Program) {
    d in c.defs && exists h: History, k: nat :: k <= |ProgramOf(c, h, d)| && p == ProgramOf(c, h, d)[k..]
  }

  ghost predicate FrameOk(c: Config, f: Frame) {
    match f
    case Entered(d, p) => Suffix(c, d, p)
    case Cleaning(d, p) => Suffix(c, d, p)
    case At(d, p, _) => Suffix(c, d, p)
    case _ => true
  }

  /** Every frame stands in a program of its unit, and all but the innermost wait for a dependency. */
  ghost predicate ThreadOk(c: Config, t: Thread) {
    && (forall k :: 0 <= k < |t.stack| ==> FrameOk(c, t.stack[k]))
    && forall k :: 0 <= k < |t.stack| - 1 ==> t.stack[k].At? && t.stack[k].p != [] && t.stack[k].p[0].Depend?
  }

  ghost predicate SystemOk(c: Config, s: System) {
    c.Valid() && forall i :: 0 <= i < |s.threads| ==> ThreadOk(c, s.threads[i])
  }

  lemma SuffixTail(c: Config, d: Name, p: Program)
    requires Suffix(c, d, p) && p != []
    ensures Suffix(c, d, p[1..])
  {
    var h, k: nat :| k <= |ProgramOf(c, h, d)| && p == ProgramOf(c, h, d)[k..];
    assert p[1..] == ProgramOf(c, h, d)[k + 1..];
  }

  lemma ReplaceOk(c: Config, t: Thread, f: Frame)
    requires ThreadOk(c, t) && t.stack != [] && FrameOk(c, f)
    ensures ThreadOk(c, Replace(t, f))
  {
    var stack := Replace(t, f).stack;
    assert forall k :: 0 <= k < |stack| - 1 ==> stack[k] == t.stack[k];
  }

  lemma RunInstrOk(c: Config, s: System, t: Thread, f: Frame, choice: Choice)
    requires ThreadOk(c, t) && t.stack != [] && f == Top(t) && f.At? && f.p != []
    ensures ThreadOk(c, RunInstr(s, t, f, choice).thread)
  {
    assert FrameOk(c, t.stack[|t.stack| - 1]);
    SuffixTail(c, f.d, f.p);
    ReplaceOk(c, t, At(f.d, f.p[1..], false));
    ReplaceOk(c, t, Done(f.d, false));
    ReplaceOk(c, t, Done(f.d, true));
  }

  lemma ReturnOk(c: Config, t: Thread, f: Frame)
    requires ThreadOk(c, t) && t.stack != [] && f == Top(t) && f.Done?
    ensures ThreadOk(c, Return(t, f))
  {
    if |t.stack| > 1 {
      var g := t.stack[|t.stack| - 2];
      SuffixTail(c, g.d, g.p);
      var stack := Return(t, f).stack;
      assert forall k :: 0 <= k < |stack| - 1 ==> stack[k] == t.stack[k];
    }
  }

  lemma BeginOk(c: Config, s: System, t: Thread, d: Name, h: History)
    requires ThreadOk(c, t) && t.stack != []
    ensures ThreadOk(c, Begin(c, s, t, d, h).thread)
  {
    if d in c.defs {
      var p := ProgramOf(c, h, d);
      assert p[0..] == p;
      ReplaceOk(c, t, Entered(d, p));
    }
    ReplaceOk(c, t, Done(d, false));
    ReplaceOk(c, t, Done(d, true));
  }

  lemma MoveOk(c: Config, s: System, t: Thread, choice: Choice)
    requires ThreadOk(c, t)
    ensures ThreadOk(c, MoveThread(c, s, t, choice).thread)
  {
    if t.stack != [] {
      var f := Top(t);
      assert FrameOk(c, t.stack[|t.stack| - 1]);
      ReplaceOk(c, t, Done(f.d, false));
      match f
      case Entry(d) => ReplaceOk(c, t, Admitted(d));
      case Admitted(d) => BeginOk(c, s, t, d, choice.h);
      case Entered(d, p) => ReplaceOk(c, t, Cleaning(d, p));
      case Cleaning(d, p) => ReplaceOk(c, t, At(d, p, false));
      case At(d, p, armed) =>
        ReplaceOk(c, t, Done(d, true));
        ReplaceOk(c, t, At(d, p, true));
        if p != [] && !(p[0].Guarded() && !armed) {
          RunInstrOk(c, s, t, f, choice);
        }
      case Done(_, _) => ReturnOk(c, t, f);
    }
  }

  lemma {:induction false} AdvanceOk(c: Config, s: System, a: Action)
    requires SystemOk(c, s)
    ensures SystemOk(c, Advance(c, s, a))
  {
    if a.Move? && a.t < |s.threads| {
      MoveOk(c, s, s.threads[a.t], a.choice);
    }
  }

  // ---- the bounds

  lemma RunInstrSpendsArmed(s: System, t: Thread, f: Frame, choice: Choice)
    requires t.stack != [] && f == Top(t) && f.At? && f.p != [] && (f.p[0].Guarded() ==> f.armed)
    ensures var t' := RunInstr(s, t, f, choice).thread; t'.launched + Armed(t') <= t.launched + Armed(t)
  {
  }

  /** With the flag set, a step spends at most what the thread was holding. */
  lemma MoveSpends(c: Config, s: System, t: Thread, choice: Choice)
    requires s.shutdown && ThreadOk(c, t)
    ensures var t' := MoveThread(c, s, t, choice).thread; t'.launched + Armed(t') <= t.launched + Armed(t)
  {
    if t.stack != [] {
      var f := Top(t);
      if f.At? && f.p != [] && !(f.p[0].Guarded() && !f.armed) {
        RunInstrSpendsArmed(s, t, f, choice);
      }
    }
  }

  ghost predicate AllHaveStart(c: Config) {
    forall d :: d in c.defs ==> c.defs[d].start != []
  }

  lemma LaterStage(q: Program, k: nat, i: Instr)
    requires InOrder(q) && k < |q| && i in q && Stage(q[k]) < Stage(i)
    ensures i in q[k..][1..]
  {
    var j :| 0 <= j < |q| && q[j] == i;
    assert j > k;
    assert q[k..][1..][j - k - 1] == i;
  }

  /** The whole program a suffix comes from. */
  lemma Whole(c: Config, d: Name, p: Program) returns (q: Program, k: nat)
    requires c.Valid() && Suffix(c, d, p)
    ensures InOrder(q) && k <= |q| && p == q[k..]
    ensures c.defs[d].start != [] ==> Run(ExecStart, c.defs[d].start[0]) in q
  {
    var h: History;
    h, k :| k <= |ProgramOf(c, h, d)| && p == ProgramOf(c, h, d)[k..];
    q := ProgramOf(c, h, d);
    ProgramInOrder(c, h, d);
    if c.defs[d].start != [] {
      StartInstr(c, h, d);
    }
  }

  /** Behind every dependency of a unit with an ExecStart line there is still a look at the flag. */
  lemma GuardAhead(c: Config, d: Name, p: Program)
    requires c.Valid() && Suffix(c, d, p) && p != [] && p[0].Depend? && c.defs[d].start != []
    ensures Run(ExecStart, c.defs[d].start[0]) in p[1..]
  {
    var q, k := Whole(c, d, p);
    LaterStage(q, k, Run(ExecStart, c.defs[d].start[0]));
  }

  lemma FinishIsFinal(c: Config, d: Name, p: Program)
    requires c.Valid() && Suffix(c, d, p) && p != [] && p[0].Finish?
    ensures forall i :: i in p ==> !i.Guarded()
  {
    var q, k := Whole(c, d, p);
    FinalStage(q, k);
  }

  lemma FinalStage(q: Program, k: nat)
    requires InOrder(q) && k < |q| && q[k].Finish?
    ensures forall i :: i in q[k..] ==> i.Finish?
  {
    forall i | i in q[k..]
      ensures i.Finish?
    {
      var j :| 0 <= j < |q[k..]| && q[k..][j] == i;
      assert q[k + j] == i && Stage(q[k]) <= Stage(q[k + j]);
    }
  }

  lemma StartInstr(c: Config, h: History, d: Name)
    requires c.Valid() && d in c.defs && c.defs[d].start != []
    ensures Run(ExecStart, c.defs[d].start[0]) in ProgramOf(c, h, d)
  {
    var i := Run(ExecStart, c.defs[d].start[0]);
    assert Runs(ExecStart, c.defs[d].start)[0] == i;
    assert i in Runs(ExecStart, c.defs[d].start);
    assert i in CommandPart(c.defs[d]);
  }

  lemma ReturnSpends(c: Config, t: Thread, f: Frame)
    requires c.Valid() && AllHaveStart(c) && ThreadOk(c, t) && t.stack != [] && f == Top(t) && f.Done?
    ensures Free(Return(t, f)) == 0
  {
    if |t.stack| > 1 {
      var g := t.stack[|t.stack| - 2];
      GuardAhead(c, g.d, g.p);
      assert Run(ExecStart, c.defs[g.d].start[0]).Guarded();
    }
  }

  lemma NextUnchecked(f: Frame)
    requires f.At? && f.p != [] && (f.p[0].Guarded() ==> f.armed)
    ensures Unchecked(At(f.d, f.p[1..], false)) ==> Unchecked(f)
  {
    assert f.p == [f.p[0]] + f.p[1..];
  }

  lemma FinishUnchecked(c: Config, f: Frame)
    requires c.Valid() && f.At? && Suffix(c, f.d, f.p) && f.p != [] && f.p[0].Finish?
    ensures Unchecked(f)
  {
    FinishIsFinal(c, f.d, f.p);
  }

  /** What a thread is still allowed once f has replaced its top. */
  lemma FreeOf(t: Thread, f: Frame, launched: nat, raised: nat)
    requires t.stack != []
    ensures Free(Replace(t, f).(launched := launched, raised := raised)) == if Unchecked(f) then 1 else 0
  {
  }

  lemma FreePushed(t: Thread, f: Frame)
    requires !f.At?
    ensures Free(t.(stack := t.stack + [f])) == 0
  {
  }

  lemma FinishSpends(c: Config, s: System, t: Thread, f: Frame, choice: Choice)
    requires c.Valid() && t.stack != [] && f == Top(t) && f.At? && f.p != [] && f.p[0].Finish? && Suffix(c, f.d, f.p)
    ensures var t' := RunInstr(s, t, f, choice).thread; t'.raised + Free(t') <= t.raised + Free(t)
  {
    FinishUnchecked(c, f);
    OnlyAtIsUnchecked(Done(f.d, false));
    OnlyAtIsUnchecked(Done(f.d, true));
  }

  lemma WorkSpends(s: System, t: Thread, f: Frame, choice: Choice)
    requires t.stack != [] && f == Top(t) && f.At? && f.p != [] && (f.p[0].Guarded() ==> f.armed)
    requires !f.p[0].Finish? && !f.p[0].Depend?
    ensures var t' := RunInstr(s, t, f, choice).thread; t'.raised + Free(t') <= t.raised + Free(t)
  {
    hide Unchecked, Free;
    var t' := RunInstr(s, t, f, choice).thread;
    FreeNow(t);
    NextUnchecked(f);
    FreeOf(t, At(f.d, f.p[1..], false), t'.launched, t'.raised);
    FreeOf(t, Done(f.d, false), t'.launched, t'.raised);
    FreeOf(t, Done(f.d, true), t'.launched, t'.raised);
    OnlyAtIsUnchecked(Done(f.d, false));
    OnlyAtIsUnchecked(Done(f.d, true));
  }

  lemma FreeNow(t: Thread)
    requires t.stack != []
    ensures Free(t) == if Unchecked(Top(t)) then 1 else 0
  {
  }

  lemma RunInstrSpends(c: Config, s: System, t: Thread, f: Frame, choice: Choice)
    requires c.Valid() && ThreadOk(c, t) && t.stack != [] && f == Top(t) && f.At? && f.p != []
    requires f.p[0].Guarded() ==> f.armed
    ensures var t' := RunInstr(s, t, f, choice).thread; t'.raised + Free(t') <= t.raised + Free(t)
  {
    if f.p[0].Finish? {
      FinishSpends(c, s, t, f, choice);
    } else if f.p[0].Depend? {
      FreePushed(t, Entry(f.p[0].dep));
    } else {
      WorkSpends(s, t, f, choice);
    }
  }

  lemma OnlyAtIsUnchecked(f: Frame)
    ensures Unchecked(f) ==> f.At?
  {
  }

  lemma MoveSpendsRaise(c: Config, s: System, t: Thread, choice: Choice)
    requires s.shutdown && c.Valid() && AllHaveStart(c) && ThreadOk(c, t)
    ensures var t' := MoveThread(c, s, t, choice).thread; t'.raised + Free(t') <= t.raised + Free(t)
  {
    if t.stack != [] {
      var f := Top(t);
      if f.At? && f.p != [] && !(f.p[0].Guarded() && !f.armed) {
        RunInstrSpends(c, s, t, f, choice);
      } else if f.Done? {
        ReturnSpends(c, t, f);
      }
    }
  }

  /** In every interleaving, once the flag is set: a goroutine launches at most one more command, and none
      unless it was already past the abort check of that command; if every unit has an ExecStart line it makes
      at most one more unit Running, and none unless it was already past its last check. */
  lemma {:induction false} AfterTheFlag(c: Config, s: System, schedule: seq<Action>, t: nat)
    requires SystemOk(c, s) && s.shutdown && t < |s.threads|
    ensures var s' := AdvanceAll(c, s, schedule);
            && |s'.threads| == |s.threads|
            && s'.threads[t].launched <= s.threads[t].launched + Armed(s.threads[t])
            && (AllHaveStart(c) ==> s'.threads[t].raised <= s.threads[t].raised + Free(s.threads[t]))
    decreases |schedule|
  {
    if schedule != [] {
      var a := schedule[0];
      var s1 := Advance(c, s, a);
      AdvanceOk(c, s, a);
      if a.Move? && a.t == t {
        MoveSpends(c, s, s.threads[t], a.choice);
        if AllHaveStart(c) {
          MoveSpendsRaise(c, s, s.threads[t], a.choice);
        }
      }
      AfterTheFlag(c, s1, schedule[1..], t);
    }
  }

  /** The same from the beginning of the world: whatever happened before the flag was set. */
  lemma {:induction false} EveryScheduleBounded(c: Config, s: System, before: seq<Action>, after: seq<Action>, t: nat)
    requires c.Valid() && t < |s.threads| && forall i :: 0 <= i < |s.threads| ==> s.threads[i].stack == []
    ensures var s1 := Advance(c, AdvanceAll(c, s, before), SetFlag);
            var s2 := AdvanceAll(c, s1, after);
            && |s1.threads| == |s2.threads| == |s.threads|
            && s2.threads[t].launched <= s1.threads[t].launched + 1
            && (s1.threads[t].stack == [] ==> s2.threads[t].launched == s1.threads[t].launched)
            && (AllHaveStart(c) ==> s2.threads[t].raised <= s1.threads[t].raised + 1)
            && (AllHaveStart(c) && s1.threads[t].stack == [] ==> s2.threads[t].raised == s1.threads[t].raised)
  {
    AllOk(c, s, before);
    var s1 := Advance(c, AdvanceAll(c, s, before), SetFlag);
    AdvanceOk(c, AdvanceAll(c, s, before), SetFlag);
    AfterTheFlag(c, s1, after, t);
    CountsGrow(c, s1, after, t);
  }

  lemma {:induction false} AllOk(c: Config, s: System, schedule: seq<Action>)
    requires SystemOk(c, s)
    ensures SystemOk(c, AdvanceAll(c, s, schedule)) && |AdvanceAll(c, s, schedule).threads| == |s.threads|
    decreases |schedule|
  {
    if schedule != [] {
      AdvanceOk(c, s, schedule[0]);
      AllOk(c, Advance(c, s, schedule[0]), schedule[1..]);
    }
  }

  lemma OneCountGrows(c: Config, s: System, a: Action, t: nat)
    requires t < |s.threads|
    ensures |Advance(c, s, a).threads| == |s.threads|
    ensures Advance(c, s, a).threads[t].launched >= s.threads[t].launched
    ensures Advance(c, s, a).threads[t].raised >= s.threads[t].raised
  {
  }

  lemma {:induction false} CountsGrow(c: Config, s: System, schedule: seq<Action>, t: nat)
    requires t < |s.threads|
    ensures |AdvanceAll(c, s, schedule).threads| == |s.threads|
    ensures AdvanceAll(c, s, schedule).threads[t].launched >= s.threads[t].launched
    ensures AdvanceAll(c, s, schedule).threads[t].raised >= s.threads[t].raised
    decreases |schedule|
  {
    hide Advance;
    if schedule != [] {
      OneCountGrows(c, s, schedule[0], t);
      CountsGrow(c, Advance(c, s, schedule[0]), schedule[1..], t);
    }
  }

  // ---- units with no start in flight

  /** Some activation for d is past its first look at the flag. */
  predicate InFlight(t: Thread, d: Name) {
    exists k :: 0 <= k < |t.stack| && t.stack[k].d == d && !t.stack[k].Entry? && !t.stack[k].Done?
  }

  ghost predicate Down(s: System, d: Name) {
    && (d in s.state ==> s.state[d] != Starting && s.state[d] != DaemonState.Running)
    && forall i :: 0 <= i < |s.threads| ==> !InFlight(s.threads[i], d)
  }

  lemma MoveKeepsDown(c: Config, s: System, t: Thread, choice: Choice, d: Name)
    requires s.shutdown && !InFlight(t, d)
    ensures var e := MoveThread(c, s, t, choice);
            && !InFlight(e.thread, d)
            && (e.write.Some? ==> Target(t) != d)
  {
    var e := MoveThread(c, s, t, choice);
    if t.stack != [] {
      var f := Top(t);
      assert t.stack[|t.stack| - 1] == f;
      if f.Done? && |t.stack| > 1 {
        assert t.stack[|t.stack| - 2].d != d || t.stack[|t.stack| - 2].Entry? || t.stack[|t.stack| - 2].Done?;
      }
      forall k | 0 <= k < |e.thread.stack| && e.thread.stack[k].d == d
        ensures e.thread.stack[k].Entry? || e.thread.stack[k].Done?
      {
        if k < |t.stack| && e.thread.stack[k] == t.stack[k] {
        }
      }
    }
  }

  /** In every interleaving, once the flag is set, a unit that is neither Starting nor Running and has no start
      in flight never becomes Starting or Running again. */
  lemma {:induction false} StaysDown(c: Config, s: System, schedule: seq<Action>, d: Name)
    requires s.shutdown && Down(s, d)
    ensures Down(AdvanceAll(c, s, schedule), d)
    decreases |schedule|
  {
    if schedule != [] {
      var a := schedule[0];
      if a.Move? && a.t < |s.threads| {
        MoveKeepsDown(c, s, s.threads[a.t], a.choice, d);
      }
      StaysDown(c, Advance(c, s, a), schedule[1..], d);
    }
  }
}
