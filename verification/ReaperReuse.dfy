/** What reuse of a pid does to the reaper: exactly when a waiter can be handed another process's status. */
module ReaperReuse {
  import opened Options
  import opened Reaper

  /** Latch l is locked, so its status is still to come. */
  predicate IsLocked(s: System, l: nat) {
    l < |s.latches| && s.latches[l].locked
  }

  /** A reaper at work on the latch's own process, with the lock. */
  predicate DeliversOwn(r: Reaper, x: Latch) {
    r.Delivering? && r.pid == x.pid && r.id == x.id
  }

  /** A reaper with another process of the latch's pid in hand. */
  predicate HasOther(r: Reaper, x: Latch) {
    Pending(r, x.pid) && r.id != x.id
  }

  /** Another process of the latch's pid is around: in a reaper's hands, or in the kernel where a second reaper can
      take it; and the latch's own process is not just being delivered. */
  ghost predicate Clash(s: System, l: nat)
    requires l < |s.latches|
  {
    var x := s.latches[l];
    && (forall j :: 0 <= j < |s.reapers| ==> !DeliversOwn(s.reapers[j], x))
    && ((exists j :: 0 <= j < |s.reapers| && HasOther(s.reapers[j], x)) ||
        (x.pid in s.processes && s.processes[x.pid].id != x.id && |s.reapers| >= 2))
  }

  /** On some continuation without further reuse the latch is opened with the status of another process. */
  ghost predicate CanGoWrong(s: System, l: nat) {
    exists schedule :: Careful(schedule) && Wrong(ActAll(s, schedule), l)
  }

  predicate Wrong(s: System, l: nat) {
    l < |s.latches| && s.latches[l].origin != s.latches[l].id
  }

  // ---- no clash, no harm

  /** The latch is open and right, or locked and not threatened. */
  ghost predicate Safe(s: System, l: nat) {
    l < |s.latches| && !Wrong(s, l) && (s.latches[l].locked ==> !Clash(s, l))
  }

  lemma SafeStays(s: System, a: Action, l: nat)
    requires Invariant(s) && Safe(s, l) && !a.Reuse?
    ensures Safe(Act(s, a), l)
  {
    match a
    case Reap(i, pid) => if i < |s.reapers| { ReapSafe(s, i, pid, l); }
    case Wait(i) => if i < |s.waiters| { WaitSafe(s, i, l); }
    case Fork(pid) => ForkSafe(s, pid, l);
    case _ =>
  }

  lemma WaitSafe(s: System, i: nat, l: nat)
    requires Invariant(s) && Safe(s, l) && i < |s.waiters|
    ensures Safe(WaitStep(s, i), l)
  {
    var s' := WaitStep(s, i);
    assert s'.reapers == s.reapers && s'.processes == s.processes && s'.latches[l] == s.latches[l];
  }

  lemma ForkSafe(s: System, pid: Pid, l: nat)
    requires Invariant(s) && Safe(s, l)
    ensures Safe(Act(s, Fork(pid)), l)
  {
    var x := s.latches[l];
    if x.locked && x.pid == pid {
      assert Awaited(s, pid, x.id);
      assert pid in s.processes || PidInHand(s, pid);
    }
  }

  /** What one step of a reaper does to a locked latch that is not threatened. */
  lemma ReapSafe(s: System, i: nat, pid: Pid, l: nat)
    requires Invariant(s) && Safe(s, l) && i < |s.reapers|
    ensures Safe(ReapStep(s, i, pid), l)
  {
    var x := s.latches[l];
    if x.locked {
      assert Awaited(s, x.pid, x.id) && s.table[x.pid] == l;
      match s.reapers[i]
      case Waiting => TakeSafe(s, i, pid, l);
      case Holding(q, id, ws) => LockSafe(s, i, pid, l);
      case Delivering(q, id, ws) => DeliverSafe(s, i, pid, l);
      case _ => QuietReapSafe(s, i, pid, l);
    } else {
      OpenStays(s, i, pid, l);
    }
  }

  /** An open latch is touched by nobody. */
  lemma OpenStays(s: System, i: nat, pid: Pid, l: nat)
    requires Invariant(s) && i < |s.reapers| && l < |s.latches| && !s.latches[l].locked
    ensures ReapStep(s, i, pid).latches[l] == s.latches[l]
  {
    var r := s.reapers[i];
    if r.Delivering? && r.pid in s.table {
      OnlyReaper(s, i);
      assert s.latches[s.table[r.pid]].locked;
    }
  }

  lemma TakeSafe(s: System, i: nat, pid: Pid, l: nat)
    requires Invariant(s) && Safe(s, l) && i < |s.reapers| && s.reapers[i].Waiting? && s.latches[l].locked
    ensures Safe(ReapStep(s, i, pid), l)
  {
    var x := s.latches[l];
    var s' := ReapStep(s, i, pid);
    assert Awaited(s, x.pid, x.id);
    if j :| 0 <= j < |s.reapers| && DeliversOwn(s.reapers[j], x) {
      assert s'.reapers[j] == s.reapers[j];
    } else {
      forall j | 0 <= j < |s'.reapers|
        ensures !HasOther(s'.reapers[j], x)
      {
        assert !HasOther(s.reapers[j], x);
      }
    }
  }

  lemma LockSafe(s: System, i: nat, pid: Pid, l: nat)
    requires Invariant(s) && Safe(s, l) && i < |s.reapers| && s.reapers[i].Holding? && s.latches[l].locked
    ensures Safe(ReapStep(s, i, pid), l)
  {
    var x := s.latches[l];
    var s' := ReapStep(s, i, pid);
    if j :| 0 <= j < |s.reapers| && DeliversOwn(s.reapers[j], x) {
      assert s'.reapers[j] == s.reapers[j];
    } else {
      forall j | 0 <= j < |s'.reapers|
        ensures !HasOther(s'.reapers[j], x)
      {
        assert !HasOther(s.reapers[j], x);
      }
    }
  }

  lemma DeliverSafe(s: System, i: nat, pid: Pid, l: nat)
    requires Invariant(s) && Safe(s, l) && i < |s.reapers| && s.reapers[i].Delivering? && s.latches[l].locked
    ensures Safe(ReapStep(s, i, pid), l)
  {
    var x := s.latches[l];
    var r := s.reapers[i];
    var s' := ReapStep(s, i, pid);
    OnlyReaper(s, i);
    if r.pid == x.pid {
      assert s.table[x.pid] == l;
      if r.id != x.id {
        assert HasOther(r, x);
        assert false;
      }
    } else {
      assert s'.latches[l] == x;
      forall j | 0 <= j < |s'.reapers|
        ensures !DeliversOwn(s'.reapers[j], x) && (HasOther(s'.reapers[j], x) ==> HasOther(s.reapers[j], x))
        ensures !DeliversOwn(s.reapers[j], x)
      {
        assert j != i ==> !s.reapers[j].Delivering?;
      }
    }
  }

  lemma QuietReapSafe(s: System, i: nat, pid: Pid, l: nat)
    requires Invariant(s) && Safe(s, l) && i < |s.reapers| && s.latches[l].locked
    requires s.reapers[i].Deleting? || s.reapers[i].Releasing?
    ensures Safe(ReapStep(s, i, pid), l)
  {
    var x := s.latches[l];
    var s' := ReapStep(s, i, pid);
    OnlyReaper(s, i);
    forall j | 0 <= j < |s'.reapers|
      ensures !DeliversOwn(s'.reapers[j], x) && (HasOther(s'.reapers[j], x) ==> HasOther(s.reapers[j], x))
      ensures !DeliversOwn(s.reapers[j], x)
    {
      assert j != i ==> !s.reapers[j].Delivering?;
    }
  }

  lemma {:induction false} SafeForEver(s: System, schedule: seq<Action>, l: nat)
    requires Invariant(s) && Safe(s, l) && Careful(schedule)
    ensures Safe(ActAll(s, schedule), l)
    decreases |schedule|
  {
    if schedule != [] {
      assert schedule[0] in schedule;
      ActKeeps(s, schedule[0]);
      SafeStays(s, schedule[0], l);
      SafeForEver(Act(s, schedule[0]), schedule[1..], l);
    }
  }

  // ---- a clash, and a schedule that does the harm

  lemma {:induction false} ActAllConcat(s: System, a: seq<Action>, b: seq<Action>)
    ensures ActAll(s, a + b) == ActAll(ActAll(s, a), b)
    decreases |a|
  {
    if a == [] {
      assert a + b == b;
    } else {
      assert (a + b)[1..] == a[1..] + b;
      ActAllConcat(Act(s, a[0]), a[1..], b);
    }
  }

  lemma WrongAfter(s: System, a: Action, l: nat)
    requires !a.Reuse? && CanGoWrong(Act(s, a), l)
    ensures CanGoWrong(s, l)
  {
    var w :| Careful(w) && Wrong(ActAll(Act(s, a), w), l);
    assert ([a] + w)[1..] == w && ActAll(s, [a] + w) == ActAll(Act(s, a), w);
  }

  lemma WrongBy(s: System, w: seq<Action>, l: nat)
    requires Careful(w) && CanGoWrong(ActAll(s, w), l)
    ensures CanGoWrong(s, l)
  {
    var rest :| Careful(rest) && Wrong(ActAll(ActAll(s, w), rest), l);
    ActAllConcat(s, w, rest);
  }

  lemma WrongNow(s: System, l: nat)
    requires Wrong(s, l)
    ensures CanGoWrong(s, l)
  {
    assert Careful([]) && ActAll(s, []) == s;
  }

  /** A reaper that delivers another process of the latch's pid opens it wrongly. */
  lemma DeliveringGoesWrong(s: System, l: nat, j: nat)
    requires Invariant(s) && l < |s.latches| && s.latches[l].locked && j < |s.reapers|
    requires s.reapers[j].Delivering? && HasOther(s.reapers[j], s.latches[l])
    ensures CanGoWrong(s, l)
  {
    assert s.table[s.latches[l].pid] == l;
    WrongNow(Act(s, Reap(j, 0)), l);
    WrongAfter(s, Reap(j, 0), l);
  }

  lemma HoldingGoesWrong(s: System, l: nat, j: nat)
    requires Invariant(s) && l < |s.latches| && s.latches[l].locked && j < |s.reapers| && s.lock == Free
    requires HasOther(s.reapers[j], s.latches[l])
    ensures CanGoWrong(s, l)
  {
    if s.reapers[j].Delivering? {
      DeliveringGoesWrong(s, l, j);
    } else {
      ActKeeps(s, Reap(j, 0));
      DeliveringGoesWrong(Act(s, Reap(j, 0)), l, j);
      WrongAfter(s, Reap(j, 0), l);
    }
  }

  lemma KernelGoesWrong(s: System, l: nat, j: nat)
    requires Invariant(s) && l < |s.latches| && s.latches[l].locked && j < |s.reapers| && s.lock == Free
    requires s.reapers[j].Waiting?
    requires var p := s.latches[l].pid; p in s.processes && s.processes[p].id != s.latches[l].id
    ensures CanGoWrong(s, l)
  {
    var p := s.latches[l].pid;
    var s1 := Act(s, Exit(p, 0));
    ActKeeps(s, Exit(p, 0));
    assert s1.processes[p].exit.Some? && s1.processes[p].id == s.processes[p].id && s1.reapers == s.reapers;
    ActKeeps(s1, Reap(j, p));
    HoldingGoesWrong(Act(s1, Reap(j, p)), l, j);
    WrongAfter(s1, Reap(j, p), l);
    WrongAfter(s, Exit(p, 0), l);
  }

  /** How far the holder of the lock is from giving it back. */
  function ToGo(s: System): nat {
    match s.lock
    case Free => 0
    case ByReaper(j) => if j < |s.reapers| then ReaperToGo(s.reapers[j]) else 0
    case ByWaiter(i) => if i < |s.waiters| then WaiterToGo(s.waiters[i]) else 0
  }

  function ReaperToGo(r: Reaper): nat {
    match r
    case Delivering(_, _, _) => 3
    case Deleting(_) => 2
    case _ => 1
  }

  function WaiterToGo(w: Waiter): nat {
    match w
    case Looking(_) => 4
    case Probing(_) => 3
    case Creating(_, _) => 2
    case _ => 1
  }

  /** The lock, if taken, is held by someone there is. */
  ghost predicate OwnerExists(s: System) {
    match s.lock
    case Free => true
    case ByReaper(j) => j < |s.reapers|
    case ByWaiter(i) => i < |s.waiters|
  }

  lemma {:induction false} OwnerRemains(s: System, schedule: seq<Action>)
    requires OwnerExists(s)
    ensures OwnerExists(ActAll(s, schedule)) && |ActAll(s, schedule).reapers| == |s.reapers|
    decreases |schedule|
  {
    if schedule != [] {
      OwnerStays(s, schedule[0]);
      OwnerRemains(Act(s, schedule[0]), schedule[1..]);
    }
  }

  lemma OwnerStays(s: System, a: Action)
    requires OwnerExists(s)
    ensures OwnerExists(Act(s, a)) && |Act(s, a).reapers| == |s.reapers|
  {
  }

  /** From s to s' the latch and the kernel are as they were, and so is every reaper outside the lock. */
  ghost predicate Apart(s: System, s': System, l: nat) {
    && |s'.reapers| == |s.reapers| && s'.processes == s.processes
    && l < |s.latches| && l < |s'.latches| && s'.latches[l] == s.latches[l]
    && forall j :: 0 <= j < |s.reapers| ==>
         if ReaperLocked(s.reapers[j]) then s'.reapers[j].Waiting? || ReaperLocked(s'.reapers[j])
         else s'.reapers[j] == s.reapers[j]
  }

  /** The step of the lock's holder. */
  function OwnerStep(s: System): Action {
    match s.lock
    case ByWaiter(i) => Wait(i)
    case ByReaper(j) => Reap(j, 0)
    case Free => Wait(0)
  }

  lemma OwnerSteps(s: System, l: nat)
    requires Invariant(s) && OwnerExists(s) && s.lock != Free && l < |s.latches| && s.latches[l].locked
    requires forall j :: 0 <= j < |s.reapers| && s.reapers[j].Delivering? ==> s.reapers[j].pid != s.latches[l].pid
    ensures var s' := Act(s, OwnerStep(s));
            && Apart(s, s', l) && ToGo(s') < ToGo(s)
            && forall j :: 0 <= j < |s'.reapers| ==> !(s'.reapers[j].Delivering? && !s.reapers[j].Delivering?)
  {
    if s.lock.ByReaper? {
      var r := s.reapers[s.lock.i];
      assert ReaperLocked(r);
      if r.Delivering? && r.pid in s.table {
        assert s.latches[s.table[r.pid]].pid == r.pid;
      }
    } else {
      assert WaiterLocked(s.waiters[s.lock.i]);
    }
  }

  /** Unless a process of the latch's pid is being delivered, the lock can be freed without touching the latch. */
  lemma {:induction false} FreeLock(s: System, l: nat) returns (w: seq<Action>)
    requires Invariant(s) && OwnerExists(s) && l < |s.latches| && s.latches[l].locked
    requires forall j :: 0 <= j < |s.reapers| && s.reapers[j].Delivering? ==> s.reapers[j].pid != s.latches[l].pid
    ensures Careful(w)
    ensures var s' := ActAll(s, w);
            && Invariant(s') && OwnerExists(s') && s'.lock == Free && Apart(s, s', l)
            && forall j :: 0 <= j < |s'.reapers| ==> !s'.reapers[j].Delivering?
    decreases ToGo(s)
  {
    if s.lock == Free {
      w := [];
    } else {
      var a := OwnerStep(s);
      var s1 := Act(s, a);
      OwnerSteps(s, l);
      ActKeeps(s, a);
      OwnerStays(s, a);
      var rest := FreeLock(s1, l);
      w := [a] + rest;
      assert w[1..] == rest;
      var s' := ActAll(s1, rest);
      assert ActAll(s, w) == s';
    }
  }

  /** With the lock free, reaper j lets go of a process of another pid. */
  lemma IdleReaper(s: System, l: nat, j: nat) returns (w: seq<Action>)
    requires Invariant(s) && OwnerExists(s) && s.lock == Free && l < |s.latches| && s.latches[l].locked
    requires j < |s.reapers| && !Pending(s.reapers[j], s.latches[l].pid)
    ensures Careful(w)
    ensures var s' := ActAll(s, w);
            Invariant(s') && OwnerExists(s') && s'.lock == Free && s'.processes == s.processes &&
            l < |s'.latches| && s'.latches[l] == s.latches[l] && j < |s'.reapers| && s'.reapers[j].Waiting?
  {
    if s.reapers[j].Waiting? {
      w := [];
    } else {
      var s1 := Act(s, Reap(j, 0));
      ActKeeps(s, Reap(j, 0));
      assert s1.lock == ByReaper(j) && s1.reapers[j].Delivering?;
      OnlyReaper(s1, j);
      var rest := FreeLock(s1, l);
      w := [Reap(j, 0)] + rest;
      assert w[1..] == rest;
    }
  }

  lemma ClashGoesWrong(s: System, l: nat)
    requires Invariant(s) && OwnerExists(s) && l < |s.latches| && s.latches[l].locked && Clash(s, l)
    ensures CanGoWrong(s, l)
  {
    var x := s.latches[l];
    if j :| 0 <= j < |s.reapers| && HasOther(s.reapers[j], x) && s.reapers[j].Delivering? {
      DeliveringGoesWrong(s, l, j);
    } else {
      forall j | 0 <= j < |s.reapers| && s.reapers[j].Delivering?
        ensures s.reapers[j].pid != x.pid
      {
        assert !DeliversOwn(s.reapers[j], x);
      }
      var w := FreeLock(s, l);
      var s1 := ActAll(s, w);
      if j :| 0 <= j < |s.reapers| && HasOther(s.reapers[j], x) {
        assert s1.reapers[j] == s.reapers[j];
        HoldingGoesWrong(s1, l, j);
      } else {
        SecondReaper(s1, l);
      }
      WrongBy(s, w, l);
    }
  }

  /** Another process in the kernel: the latch's own is in one reaper's hands, and a second reaper overtakes it. */
  lemma SecondReaper(s: System, l: nat)
    requires Invariant(s) && OwnerExists(s) && s.lock == Free && l < |s.latches| && s.latches[l].locked
    requires |s.reapers| >= 2
    requires var x := s.latches[l]; x.pid in s.processes && s.processes[x.pid].id != x.id
    ensures CanGoWrong(s, l)
  {
    var x := s.latches[l];
    assert Awaited(s, x.pid, x.id);
    var a :| 0 <= a < |s.reapers| && Pending(s.reapers[a], x.pid) && s.reapers[a].id == x.id;
    var b := if a == 0 then 1 else 0;
    if Pending(s.reapers[b], x.pid) {
      assert s.reapers[b].id != x.id;
      HoldingGoesWrong(s, l, b);
    } else {
      var w := IdleReaper(s, l, b);
      KernelGoesWrong(ActAll(s, w), l, b);
      WrongBy(s, w, l);
    }
  }

  /** In every state that any schedule reaches, reuse of pids included, and for every locked latch: without further
      reuse it can be opened with the status of another process if and only if they clash. */
  lemma GoesWrongIff(s0: System, schedule: seq<Action>, l: nat)
    requires Init(s0) && IsLocked(ActAll(s0, schedule), l)
    ensures CanGoWrong(ActAll(s0, schedule), l) <==> Clash(ActAll(s0, schedule), l)
  {
    var s := ActAll(s0, schedule);
    EveryScheduleKeeps(s0, schedule);
    OwnerRemains(s0, schedule);
    if Clash(s, l) {
      ClashGoesWrong(s, l);
    } else if CanGoWrong(s, l) {
      var w :| Careful(w) && Wrong(ActAll(s, w), l);
      SafeForEver(s, w, l);
    }
  }

  // ---- a run that does the harm

  /** It happens, from the very beginning: process 0 of pid 7 is reaped with status 1 and not yet delivered; pid 7 is
      reused; a waiter on the new process is handed the old status while the new process still runs. */
  lemma PidReuseBreaks() returns (s0: System, schedule: seq<Action>)
    ensures Init(s0)
    ensures var after := ActAll(s0, schedule);
            && after.waiters == [Returned(7, 0, 1)] && Wrong(after, 0)
            && |after.latches| == 1 && after.latches[0].id == 1
            && 7 in after.processes && after.processes[7] == Process(1, None)
  {
    s0 := System(map[], 0, map[], map[], [], Free, [Away], [Waiting]);
    var w1, s1 := RegisterOn(s0);
    schedule := DeliverOn(s0, w1, s1);
  }

  lemma ReuseInHand(s0: System) returns (w: seq<Action>, s: System)
    requires s0 == System(map[], 0, map[], map[], [], Free, [Away], [Waiting])
    ensures s == ActAll(s0, w)
    ensures s == System(map[7 := Process(1, None)], 2, map[0 := 1], map[], [], Free, [Away], [Holding(7, 0, 1)])
  {
    w, s := [], s0;
    ActAllSnoc(s0, w, Fork(7));
    w, s := w + [Fork(7)], Act(s, Fork(7));
    ActAllSnoc(s0, w, Exit(7, 1));
    w, s := w + [Exit(7, 1)], Act(s, Exit(7, 1));
    ActAllSnoc(s0, w, Reap(0, 7));
    w, s := w + [Reap(0, 7)], Act(s, Reap(0, 7));
    assert s.reapers == [Holding(7, 0, 1)] && s.processes == map[];
    ActAllSnoc(s0, w, Reuse(7));
    w, s := w + [Reuse(7)], Act(s, Reuse(7));
  }

  lemma RegisterOn(s0: System) returns (w: seq<Action>, s: System)
    requires s0 == System(map[], 0, map[], map[], [], Free, [Away], [Waiting])
    ensures s == ActAll(s0, w)
    ensures s == System(map[7 := Process(1, None)], 2, map[0 := 1], map[7 := 0],
                        [Latch(7, 1, true, 0, 1, 0, false)], Free, [Blocked(7, 0)], [Holding(7, 0, 1)])
  {
    w, s := ReuseInHand(s0);
    ActAllSnoc(s0, w, Call(0, 7));
    w, s := w + [Call(0, 7)], Act(s, Call(0, 7));
    ActAllSnoc(s0, w, Wait(0));
    w, s := w + [Wait(0)], Act(s, Wait(0));
    ActAllSnoc(s0, w, Wait(0));
    w, s := w + [Wait(0)], Act(s, Wait(0));
    ActAllSnoc(s0, w, Wait(0));
    w, s := w + [Wait(0)], Act(s, Wait(0));
    assert s.waiters[0] == Creating(7, 1);
    ActAllSnoc(s0, w, Wait(0));
    w, s := w + [Wait(0)], Act(s, Wait(0));
    ActAllSnoc(s0, w, Wait(0));
    w, s := w + [Wait(0)], Act(s, Wait(0));
  }

  lemma DeliverOn(s0: System, w1: seq<Action>, s1: System) returns (w: seq<Action>)
    requires s1 == ActAll(s0, w1)
    requires s1 == System(map[7 := Process(1, None)], 2, map[0 := 1], map[7 := 0],
                          [Latch(7, 1, true, 0, 1, 0, false)], Free, [Blocked(7, 0)], [Holding(7, 0, 1)])
    ensures var s := ActAll(s0, w);
            && s.waiters == [Returned(7, 0, 1)] && s.processes == map[7 := Process(1, None)]
            && s.latches == [Latch(7, 1, false, 1, 0, 1, false)]
  {
    w := w1;
    var s := s1;
    ActAllSnoc(s0, w, Reap(0, 7));
    w, s := w + [Reap(0, 7)], Act(s, Reap(0, 7));
    ActAllSnoc(s0, w, Reap(0, 7));
    w, s := w + [Reap(0, 7)], Act(s, Reap(0, 7));
    assert s.reapers[0] == Deleting(7) && s.latches == [Latch(7, 1, false, 1, 0, 1, false)];
    ActAllSnoc(s0, w, Reap(0, 7));
    w, s := w + [Reap(0, 7)], Act(s, Reap(0, 7));
    ActAllSnoc(s0, w, Reap(0, 7));
    w, s := w + [Reap(0, 7)], Act(s, Reap(0, 7));
    assert s.lock == Free && s.latches == [Latch(7, 1, false, 1, 0, 1, false)];
    ActAllSnoc(s0, w, Wait(0));
    w, s := w + [Wait(0)], Act(s, Wait(0));
    assert s.waiters == [Returned(7, 0, 1)];
  }

  /** Nor does it help that no reaper had the pid in hand when the entry was made: here the latch of process 0 is
      made while process 0 runs, and opened with the status of process 1, which a second reaper delivers first. */
  lemma LaterReuseBreaks() returns (s0: System, schedule: seq<Action>, made: nat)
    ensures Init(s0) && made <= |schedule| && !PidInHand(ActAll(s0, schedule[..made]), 7)
    ensures ActAll(s0, schedule[..made]).latches == [Latch(7, 0, true, 0, 0, 0, false)]
    ensures ActAll(s0, schedule).latches == [Latch(7, 0, false, 2, 1, 1, false)]
  {
    s0 := System(map[], 0, map[], map[], [], Free, [Away], [Waiting, Waiting]);
    var w1, s1 := MadeInTime(s0);
    made := |w1|;
    var w2, s2 := TwoInHand(s0, w1, s1);
    ActAllSnoc(s0, w2, Reap(1, 7));
    var w3, s3 := w2 + [Reap(1, 7)], Act(s2, Reap(1, 7));
    ActAllSnoc(s0, w3, Reap(1, 7));
    schedule := w3 + [Reap(1, 7)];
    assert schedule[..made] == w1;
  }

  lemma MadeInTime(s0: System) returns (w: seq<Action>, s: System)
    requires s0 == System(map[], 0, map[], map[], [], Free, [Away], [Waiting, Waiting])
    ensures s == ActAll(s0, w)
    ensures s == System(map[7 := Process(0, None)], 1, map[], map[7 := 0],
                        [Latch(7, 0, true, 0, 0, 0, false)], ByWaiter(0), [Leaving(7, 0)], [Waiting, Waiting])
  {
    w, s := [], s0;
    ActAllSnoc(s0, w, Fork(7));
    w, s := w + [Fork(7)], Act(s, Fork(7));
    ActAllSnoc(s0, w, Call(0, 7));
    w, s := w + [Call(0, 7)], Act(s, Call(0, 7));
    ActAllSnoc(s0, w, Wait(0));
    w, s := w + [Wait(0)], Act(s, Wait(0));
    ActAllSnoc(s0, w, Wait(0));
    w, s := w + [Wait(0)], Act(s, Wait(0));
    assert s.waiters == [Probing(7)];
    ActAllSnoc(s0, w, Wait(0));
    w, s := w + [Wait(0)], Act(s, Wait(0));
    ActAllSnoc(s0, w, Wait(0));
    w, s := w + [Wait(0)], Act(s, Wait(0));
    assert s.waiters == [Leaving(7, 0)];
  }

  lemma TwoInHand(s0: System, w1: seq<Action>, s1: System) returns (w: seq<Action>, s: System)
    requires s1 == ActAll(s0, w1)
    requires s1 == System(map[7 := Process(0, None)], 1, map[], map[7 := 0],
                          [Latch(7, 0, true, 0, 0, 0, false)], ByWaiter(0), [Leaving(7, 0)], [Waiting, Waiting])
    ensures s == ActAll(s0, w) && w1 <= w
    ensures s.table == map[7 := 0] && s.latches == [Latch(7, 0, true, 0, 0, 0, false)] && s.lock == Free
    ensures s.reapers == [Holding(7, 0, 1), Holding(7, 1, 2)]
  {
    w, s := w1, s1;
    ActAllSnoc(s0, w, Wait(0));
    w, s := w + [Wait(0)], Act(s, Wait(0));
    ActAllSnoc(s0, w, Exit(7, 1));
    w, s := w + [Exit(7, 1)], Act(s, Exit(7, 1));
    ActAllSnoc(s0, w, Reap(0, 7));
    w, s := w + [Reap(0, 7)], Act(s, Reap(0, 7));
    assert s.reapers == [Holding(7, 0, 1), Waiting] && s.processes == map[];
    ActAllSnoc(s0, w, Reuse(7));
    w, s := w + [Reuse(7)], Act(s, Reuse(7));
    ActAllSnoc(s0, w, Exit(7, 2));
    w, s := w + [Exit(7, 2)], Act(s, Exit(7, 2));
    ActAllSnoc(s0, w, Reap(1, 7));
    w, s := w + [Reap(1, 7)], Act(s, Reap(1, 7));
    assert s.reapers == [Holding(7, 0, 1), Holding(7, 1, 2)];
  }
}
