/** Exactly when a call of procwait.Run can still come back: until its status has been delivered, its child must be
    unreaped, or in the hands of a reaper that has yet to look at the command's entry. */
module CommandReturns {
  import opened Options
  import opened CommandWait

  /** The child of a command, once there is one. */
  function PidOf(r: Runner): Option<Pid> {
    match r
    case Forked(pid) => Some(pid)
    case _ => Seen(r)
  }

  /** Run has come back, with a status or with the error that its command was not found. */
  predicate Back(r: Runner) {
    r.Returned? || r.NotFound?
  }

  /** A reaper has the command's child in hand and its entry still ahead. */
  predicate Ahead(r: Reaper, pid: Pid, i: nat) {
    (r.Holding? && r.pid == pid) || (r.Delivering? && r.pid == pid && i in r.todo)
  }

  /** Nothing stands in the way of command i's call: there is no child yet, its latch is open, its child is
      unreaped, or some reaper has it in hand and the entry ahead. */
  ghost predicate Hopeful(s: System, i: nat)
    requires i < |s.runners| == |s.latches|
  {
    var pid := PidOf(s.runners[i]);
    || pid.None?
    || s.latches[i].Open?
    || pid.value in s.children
    || exists j :: 0 <= j < |s.reapers| && Ahead(s.reapers[j], pid.value, i)
  }

  ghost predicate CanComeBack(s: System, i: nat)
    requires i < |s.runners| == |s.latches|
  {
    exists schedule :: Back(ActAll(s, schedule).runners[i])
  }

  // ---- more of what every step keeps

  /** The lock is held exactly by the delivering reaper, whose list names commands. */
  ghost predicate LockOk(s: System) {
    forall j :: 0 <= j < |s.reapers| ==>
      && (s.lock == Some(j) <==> s.reapers[j].Delivering?)
      && (s.reapers[j].Delivering? ==> forall i :: i in s.reapers[j].todo ==> i < |s.runners|)
  }

  ghost predicate OwnerExists(s: System) {
    s.lock.Some? ==> s.lock.value < |s.reapers|
  }

  /** Each command's child is its own, and is unreaped or reported. */
  ghost predicate PidsOk(s: System) {
    && (forall i :: 0 <= i < |s.runners| && PidOf(s.runners[i]).Some? ==>
         var p := PidOf(s.runners[i]).value; p < s.next && (p in s.children || p in s.reported))
    && (forall i :: i in s.table ==> i < |s.runners|)
  }

  ghost predicate Sound(s: System) {
    Invariant(s) && LockOk(s) && OwnerExists(s) && PidsOk(s)
  }

  lemma InitSound(s: System)
    requires Init(s)
    ensures Sound(s)
  {
  }

  lemma RunSound(s: System, i: nat)
    requires Sound(s) && i < |s.runners|
    ensures Sound(RunStep(s, i))
  {
    RunKeeps(s, i);
    assert RunnerOk(s, i);
  }

  lemma ReapSound(s: System, j: nat, pid: Pid)
    requires Sound(s) && j < |s.reapers|
    ensures Sound(ReapStep(s, j, pid))
  {
    ReapKeeps(s, j, pid);
  }

  lemma LookSound(s: System, j: nat, i: nat)
    requires Sound(s) && j < |s.reapers| && i < |s.runners|
    ensures Sound(LookStep(s, j, i))
  {
    LookKeeps(s, j, i);
  }

  lemma ActSound(s: System, a: Action)
    requires Sound(s)
    ensures Sound(Act(s, a))
  {
    match a
    case Run(i) => if i < |s.runners| { RunSound(s, i); }
    case Exit(pid, ws) => ExitKeeps(s, pid, ws);
    case Reap(j, pid) => if j < |s.reapers| { ReapSound(s, j, pid); }
    case Look(j, i) => if j < |s.reapers| && i < |s.runners| { LookSound(s, j, i); }
  }

  lemma {:induction false} EveryScheduleSound(s: System, schedule: seq<Action>)
    requires Sound(s)
    ensures Sound(ActAll(s, schedule))
    decreases |schedule|
  {
    if schedule != [] {
      ActSound(s, schedule[0]);
      EveryScheduleSound(Act(s, schedule[0]), schedule[1..]);
    }
  }

  // ---- no hope, no return

  /** Command i has a child, is not back, and there is no hope for it. */
  ghost predicate Stranded(s: System, i: nat) {
    && i < |s.runners| == |s.latches|
    && PidOf(s.runners[i]).Some? && PidOf(s.runners[i]).value < s.next && !Back(s.runners[i])
    && !Hopeful(s, i) && i in s.table
  }

  lemma StrandedStays(s: System, a: Action, i: nat)
    requires Stranded(s, i)
    ensures Stranded(Act(s, a), i)
  {
    var s' := Act(s, a);
    var pid := PidOf(s.runners[i]).value;
    assert forall j :: 0 <= j < |s.reapers| ==> !Ahead(s.reapers[j], pid, i);
    assert PidOf(s'.runners[i]) == Some(pid);
    forall j | 0 <= j < |s'.reapers|
      ensures !Ahead(s'.reapers[j], pid, i)
    {
      assert !Ahead(s.reapers[j], pid, i);
    }
  }

  /** A command without hope waits for ever, whatever happens. */
  lemma {:induction false} StrandedForEver(s: System, schedule: seq<Action>, i: nat)
    requires Stranded(s, i)
    ensures Stranded(ActAll(s, schedule), i)
    decreases |schedule|
  {
    if schedule != [] {
      StrandedStays(s, schedule[0], i);
      StrandedForEver(Act(s, schedule[0]), schedule[1..], i);
    }
  }

  // ---- hope, and a schedule that fulfils it

  /** From s to s' the holder of the lock has finished its round: nothing moved but its own list, and what it had to
      deliver is open. */
  ghost predicate Freed(s: System, s': System) {
    && s'.lock == None && s'.runners == s.runners && s'.children == s.children && s'.next == s.next
    && |s'.reapers| == |s.reapers| && |s'.latches| == |s.latches| == |s.runners|
    && (forall j :: 0 <= j < |s.reapers| ==> s'.reapers[j] == if s.reapers[j].Delivering? then Waiting else s.reapers[j])
    && (forall k :: 0 <= k < |s.latches| && s.latches[k].Open? ==> s'.latches[k].Open?)
    && Delivered(s, s')
  }

  ghost predicate Delivered(s: System, s': System) {
    s.lock.Some? && s.lock.value < |s.reapers| && s.reapers[s.lock.value].Delivering? ==>
      var r := s.reapers[s.lock.value];
      forall k :: k in r.todo && k < |s.runners| && k < |s'.latches| && Seen(s.runners[k]) == Some(r.pid) ==>
        s'.latches[k].Open?
  }

  lemma FreedOn(s: System, j: nat, k: nat, s': System)
    requires Sound(s) && s.lock == Some(j) && j < |s.reapers| && s.reapers[j].Delivering? && k in s.reapers[j].todo
    requires Freed(Act(s, Look(j, k)), s')
    ensures Freed(s, s')
  {
    var s1 := Act(s, Look(j, k));
    var r := s.reapers[j];
    assert s1.reapers[j].todo == r.todo - {k} && s1.lock == s.lock && s1.runners == s.runners;
    forall i | i in r.todo && Seen(s.runners[i]) == Some(r.pid)
      ensures s'.latches[i].Open?
    {
      if i == k {
        assert s1.latches[i].Open?;
      }
    }
  }

  lemma {:induction false} FreeLock(s: System) returns (w: seq<Action>)
    requires Sound(s)
    ensures Sound(ActAll(s, w)) && Freed(s, ActAll(s, w))
    decreases if s.lock.Some? then |s.reapers[s.lock.value].todo| + 1 else 0
  {
    if s.lock == None {
      w := [];
    } else {
      var j := s.lock.value;
      var r := s.reapers[j];
      assert r.Delivering?;
      if r.todo == {} {
        w := [Reap(j, 0)];
        ActSound(s, Reap(j, 0));
        Once(s, Reap(j, 0));
      } else {
        hide Freed;
        var k :| k in r.todo;
        var s1 := Act(s, Look(j, k));
        ActSound(s, Look(j, k));
        assert s1.reapers[j].todo == r.todo - {k};
        var rest := FreeLock(s1);
        w := [Look(j, k)] + rest;
        assert w[1..] == rest;
        FreedOn(s, j, k, ActAll(s1, rest));
      }
    }
  }

  lemma Once(s: System, a: Action)
    requires |s.runners| == |s.latches|
    ensures ActAll(s, [a]) == Act(s, a)
  {
    assert [a][1..] == [];
  }

  lemma ComesBackBy(s: System, w: seq<Action>, i: nat)
    requires i < |s.runners| == |s.latches| && CanComeBack(ActAll(s, w), i)
    ensures CanComeBack(s, i)
  {
    var rest :| Back(ActAll(ActAll(s, w), rest).runners[i]);
    ActAllConcat(s, w, rest);
  }

  lemma ComesBackAfter(s: System, a: Action, i: nat)
    requires i < |s.runners| == |s.latches| && CanComeBack(Act(s, a), i)
    ensures CanComeBack(s, i)
  {
    Once(s, a);
    ComesBackBy(s, [a], i);
  }

  lemma BackNow(s: System, i: nat)
    requires i < |s.runners| == |s.latches| && Back(s.runners[i])
    ensures CanComeBack(s, i)
  {
    assert Back(ActAll(s, []).runners[i]);
  }

  /** An open latch lets the call come back. */
  lemma OpenComesBack(s: System, i: nat)
    requires Sound(s) && i < |s.runners| && s.latches[i].Open?
    ensures CanComeBack(s, i)
  {
    assert RunnerOk(s, i);
    if Back(s.runners[i]) {
      BackNow(s, i);
    } else if s.runners[i].Blocked? {
      BackNow(Act(s, Run(i)), i);
      ComesBackAfter(s, Run(i), i);
    } else {
      var w := FreeLock(s);
      var s1 := ActAll(s, w);
      assert RunnerOk(s1, i);
      BackNow(Act(s1, Run(i)), i);
      ComesBackAfter(s1, Run(i), i);
      ComesBackBy(s, w, i);
    }
  }

  /** With the lock free, a reaper that holds the status delivers it. */
  lemma HeldComesBack(s: System, i: nat, j: nat)
    requires Sound(s) && i < |s.runners| && s.lock == None && j < |s.reapers| && s.reapers[j].Holding?
    requires Seen(s.runners[i]) == Some(s.reapers[j].pid)
    ensures CanComeBack(s, i)
  {
    assert RunnerOk(s, i);
    if s.latches[i].Open? {
      OpenComesBack(s, i);
    } else if Back(s.runners[i]) {
      BackNow(s, i);
    } else {
      var s1 := Act(s, Reap(j, 0));
      ActSound(s, Reap(j, 0));
      var s2 := Act(s1, Look(j, i));
      ActSound(s1, Look(j, i));
      assert s2.latches[i].Open?;
      OpenComesBack(s2, i);
      ComesBackAfter(s1, Look(j, i), i);
      ComesBackAfter(s, Reap(j, 0), i);
    }
  }

  /** With the lock free and an idle reaper, a dead child is taken and delivered. */
  lemma DeadComesBack(s: System, i: nat, j: nat, pid: Pid)
    requires Sound(s) && i < |s.runners| && s.lock == None && j < |s.reapers| && s.reapers[j].Waiting?
    requires Seen(s.runners[i]) == Some(pid) && pid in s.children && s.children[pid].Some?
    ensures CanComeBack(s, i)
  {
    var s1 := Act(s, Reap(j, pid));
    ActSound(s, Reap(j, pid));
    HeldComesBack(s1, i, j);
    ComesBackAfter(s, Reap(j, pid), i);
  }

  /** With the lock free, reaper j lets go of whatever other status it holds. */
  lemma IdleReaper(s: System, j: nat) returns (w: seq<Action>)
    requires Sound(s) && s.lock == None && j < |s.reapers|
    ensures var s' := ActAll(s, w);
            && Sound(s') && s'.lock == None && s'.runners == s.runners && s'.children == s.children
            && |s'.reapers| == |s.reapers| && s'.reapers[j].Waiting?
  {
    if s.reapers[j].Waiting? {
      w := [];
    } else {
      var s1 := Act(s, Reap(j, 0));
      ActSound(s, Reap(j, 0));
      assert s1.reapers[j].Delivering?;
      var rest := FreeLock(s1);
      w := [Reap(j, 0)] + rest;
      assert w[1..] == rest;
    }
  }

  lemma UnreapedComesBack(s: System, i: nat, pid: Pid)
    requires Sound(s) && i < |s.runners| && |s.reapers| >= 1 && s.lock == None
    requires Seen(s.runners[i]) == Some(pid) && pid in s.children
    ensures CanComeBack(s, i)
  {
    var w := IdleReaper(s, 0);
    var s1 := ActAll(s, w);
    if s1.children[pid].None? {
      ActSound(s1, Exit(pid, 0));
      DeadComesBack(Act(s1, Exit(pid, 0)), i, 0, pid);
      ComesBackAfter(s1, Exit(pid, 0), i);
    } else {
      DeadComesBack(s1, i, 0, pid);
    }
    ComesBackBy(s, w, i);
  }

  /** Once cmd.Process is written, hope is enough. */
  lemma SeenComesBack(s: System, i: nat)
    requires Sound(s) && i < |s.runners| && |s.reapers| >= 1 && Seen(s.runners[i]).Some? && Hopeful(s, i)
    ensures CanComeBack(s, i)
  {
    var pid := Seen(s.runners[i]).value;
    var w := FreeLock(s);
    var s1 := ActAll(s, w);
    if s1.latches[i].Open? {
      OpenComesBack(s1, i);
    } else if pid in s1.children {
      UnreapedComesBack(s1, i, pid);
    } else {
      var j :| 0 <= j < |s.reapers| && Ahead(s.reapers[j], pid, i);
      assert s.reapers[j].Holding?;
      HeldComesBack(s1, i, j);
    }
    ComesBackBy(s, w, i);
  }

  lemma ForkedComesBack(s: System, i: nat)
    requires Sound(s) && i < |s.runners| && |s.reapers| >= 1 && s.runners[i].Forked? && Hopeful(s, i)
    ensures CanComeBack(s, i)
  {
    var s1 := Act(s, Run(i));
    ActSound(s, Run(i));
    if j :| 0 <= j < |s.reapers| && Ahead(s.reapers[j], s.runners[i].pid, i) {
      assert Ahead(s1.reapers[j], s.runners[i].pid, i);
    }
    SeenComesBack(s1, i);
    ComesBackAfter(s, Run(i), i);
  }

  lemma UnstartedComesBack(s: System, i: nat)
    requires Sound(s) && i < |s.runners| && |s.reapers| >= 1 && (s.runners[i].Fresh? || s.runners[i].Registered?)
    ensures CanComeBack(s, i)
  {
    if s.runners[i].Registered? {
      RegisteredComesBack(s, i);
    } else {
      var w := FreeLock(s);
      var s1 := ActAll(s, w);
      var s2 := Act(s1, Run(i));
      ActSound(s1, Run(i));
      RegisteredComesBack(s2, i);
      ComesBackAfter(s1, Run(i), i);
      ComesBackBy(s, w, i);
    }
  }

  lemma RegisteredComesBack(s: System, i: nat)
    requires Sound(s) && i < |s.runners| && |s.reapers| >= 1 && s.runners[i].Registered?
    ensures CanComeBack(s, i)
  {
    var s1 := Act(s, Run(i));
    ActSound(s, Run(i));
    ForkedComesBack(s1, i);
    ComesBackAfter(s, Run(i), i);
  }

  /** Exactly: in every reachable state with at least one reaper, a call of Run can still come back if and only if
      it is back already or there is hope for it. */
  lemma ComesBackIff(s0: System, schedule: seq<Action>, i: nat)
    requires Init(s0) && i < |s0.runners| && |s0.reapers| >= 1
    ensures var s := ActAll(s0, schedule);
            |s.runners| == |s.latches| == |s0.runners| && (CanComeBack(s, i) <==> Back(s.runners[i]) || Hopeful(s, i))
  {
    InitSound(s0);
    EveryScheduleSound(s0, schedule);
    ReapersRemain(s0, schedule);
    var s := ActAll(s0, schedule);
    assert RunnerOk(s, i);
    if Back(s.runners[i]) {
      BackNow(s, i);
    } else if !Hopeful(s, i) {
      forall w
        ensures !Back(ActAll(s, w).runners[i])
      {
        StrandedForEver(s, w, i);
      }
    } else if Seen(s.runners[i]).Some? {
      SeenComesBack(s, i);
    } else if s.runners[i].Forked? {
      ForkedComesBack(s, i);
    } else {
      UnstartedComesBack(s, i);
    }
  }

  lemma {:induction false} ReapersRemain(s: System, schedule: seq<Action>)
    requires |s.runners| == |s.latches|
    ensures |ActAll(s, schedule).reapers| == |s.reapers|
    decreases |schedule|
  {
    if schedule != [] {
      ReapersRemain(Act(s, schedule[0]), schedule[1..]);
    }
  }

  /** It does happen: the child exits, and a reaper passes the entry before cmd.Process is written. */
  lemma LostExample() returns (s0: System, schedule: seq<Action>)
    ensures Init(s0) && Stranded(ActAll(s0, schedule), 0)
  {
    s0 := System(map[], 0, map[], {}, [Locked], [Fresh], None, [Waiting]);
    var w, s := LostReaped(s0);
    Then(s0, w, Look(0, 0));
    w, s := w + [Look(0, 0)], Act(s, Look(0, 0));
    Then(s0, w, Reap(0, 0));
    w, s := w + [Reap(0, 0)], Act(s, Reap(0, 0));
    assert s == System(map[], 1, map[0 := 1], {0}, [Locked], [Forked(0)], None, [Waiting]);
    schedule := w;
  }

  /** The status of the child is in a reaper's hands while its runner has not come to cmd.Process. */
  lemma LostReaped(s0: System) returns (w: seq<Action>, s: System)
    requires s0 == System(map[], 0, map[], {}, [Locked], [Fresh], None, [Waiting])
    ensures s == ActAll(s0, w)
    ensures s == System(map[], 1, map[0 := 1], {0}, [Locked], [Forked(0)], Some(0), [Delivering(0, 1, {0})])
  {
    w, s := [], s0;
    Then(s0, w, Run(0));
    w, s := w + [Run(0)], Act(s, Run(0));
    Then(s0, w, Run(0));
    w, s := w + [Run(0)], Act(s, Run(0));
    assert s == System(map[0 := None], 1, map[], {0}, [Locked], [Forked(0)], None, [Waiting]);
    Then(s0, w, Exit(0, 1));
    w, s := w + [Exit(0, 1)], Act(s, Exit(0, 1));
    Then(s0, w, Reap(0, 0));
    w, s := w + [Reap(0, 0)], Act(s, Reap(0, 0));
    assert s == System(map[], 1, map[0 := 1], {0}, [Locked], [Forked(0)], None, [Holding(0, 1)]);
    Then(s0, w, Reap(0, 0));
    w, s := w + [Reap(0, 0)], Act(s, Reap(0, 0));
  }

  // ---- a command nobody disturbs

  lemma Started4(s: System, i: nat) returns (s': System)
    requires Invariant(s) && i < |s.runners| && s.runners[i] == Fresh && s.lock.None?
    ensures |s'.runners| == |s'.latches| == |s.runners|
    ensures s' == RunStep(RunStep(RunStep(RunStep(s, i), i), i), i)
    ensures s' == s.(runners := s.runners[i := Blocked(s.next)], table := s.table + {i},
                     children := s.children[s.next := None], next := s.next + 1)
  {
    var s1 := RunStep(s, i);
    assert s1.runners[i] == Registered;
    var s2 := RunStep(s1, i);
    assert s2.runners[i] == Forked(s.next);
    var s3 := RunStep(s2, i);
    assert s3.runners[i] == Started(s.next);
    s' := RunStep(s3, i);
  }

  lemma Reaped3(s: System, i: nat, j: nat, pid: Pid, ws: Status) returns (s': System)
    requires i < |s.runners| == |s.latches| && j < |s.reapers| && s.reapers[j] == Waiting && s.lock.None?
    requires s.runners[i] == Blocked(pid) && i in s.table && pid in s.children && s.children[pid] == Some(ws)
    ensures s' == LookStep(ReapStep(ReapStep(s, j, pid), j, pid), j, i)
    ensures s'.runners == s.runners && s'.latches == s.latches[i := Open(ws)] && s'.table == s.table - {i}
    ensures s'.children == s.children - {pid} && s'.reported == s.reported[pid := ws]
  {
    var s1 := ReapStep(s, j, pid);
    assert s1.reapers[j] == Holding(pid, ws);
    var s2 := ReapStep(s1, j, pid);
    assert s2.reapers[j] == Delivering(pid, ws, s.table);
    s' := LookStep(s2, j, i);
  }

  /** Moves of the command's goroutine, of its child and of one reaper. */
  ghost predicate Undisturbed(w: seq<Action>, i: nat, j: nat, pid: Pid, ws: Status) {
    forall a :: a in w ==> a in {Run(i), Exit(pid, ws), Reap(j, pid), Look(j, i)}
  }

  /** A command that nobody disturbs gets a child and an entry of its own and blocks; when the child exits and a reaper
      has passed the entry, the call returns that exit's status, and neither the entry nor the child is left. */
  lemma UndisturbedRun(s: System, i: nat, j: nat, ws: Status) returns (w: seq<Action>)
    requires Invariant(s) && i < |s.runners| && s.runners[i] == Fresh && s.lock.None?
    requires j < |s.reapers| && s.reapers[j] == Waiting
    ensures Undisturbed(w, i, j, s.next, ws)
    ensures var s' := ActAll(s, w);
            && i < |s'.runners| && s'.runners[i] == Returned(s.next, ws) && s'.table == s.table
            && s'.children == s.children && s'.reported == s.reported[s.next := ws]
  {
    hide Invariant;
    var pid := s.next;
    var s1 := Started4(s, i);
    NotYet(s, i);
    var s2 := s1.(children := s1.children[pid := Some(ws)]);
    assert Act(s1, Exit(pid, ws)) == s2;
    var s3 := Reaped3(s2, i, j, pid, ws);
    var s4 := RunStep(s3, i);
    assert s4.runners[i] == Returned(pid, ws) && s4.children == s.children && s4.table == s.table;
    w := FourRuns(s, i, j, pid, ws);
    w := FiveMore(s, s1, w, i, j, pid, ws);
  }

  lemma FiveMore(s: System, s1: System, v: seq<Action>, i: nat, j: nat, pid: Pid, ws: Status) returns (w: seq<Action>)
    requires |s.runners| == |s.latches| == |s1.runners| == |s1.latches|
    requires s1 == ActAll(s, v) && Undisturbed(v, i, j, pid, ws)
    ensures Undisturbed(w, i, j, pid, ws)
    ensures ActAll(s, w) ==
            Act(Act(Act(Act(Act(s1, Exit(pid, ws)), Reap(j, pid)), Reap(j, pid)), Look(j, i)), Run(i))
  {
    hide Act;
    Then(s, v, Exit(pid, ws));
    w := v + [Exit(pid, ws)];
    Then(s, w, Reap(j, pid));
    w := w + [Reap(j, pid)];
    Then(s, w, Reap(j, pid));
    w := w + [Reap(j, pid)];
    Then(s, w, Look(j, i));
    w := w + [Look(j, i)];
    Then(s, w, Run(i));
    w := w + [Run(i)];
  }

  lemma NotYet(s: System, i: nat)
    requires Invariant(s) && i < |s.runners| && s.runners[i] == Fresh
    ensures s.next !in s.children && i !in s.table
  {
    assert RunnerOk(s, i);
  }

  lemma FourRuns(s: System, i: nat, j: nat, pid: Pid, ws: Status) returns (w: seq<Action>)
    requires i < |s.runners| == |s.latches|
    ensures Undisturbed(w, i, j, pid, ws) && ActAll(s, w) == Act(Act(Act(Act(s, Run(i)), Run(i)), Run(i)), Run(i))
  {
    hide Act;
    w := [];
    Then(s, w, Run(i));
    w := w + [Run(i)];
    Then(s, w, Run(i));
    w := w + [Run(i)];
    Then(s, w, Run(i));
    w := w + [Run(i)];
    Then(s, w, Run(i));
    w := w + [Run(i)];
  }
}
