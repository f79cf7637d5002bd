/** The reaper and its waiters: any number of goroutines in Wait, any number of reapers in waitWithPid (the
    background one and the final one run side by side), and a kernel, interleaved in any way. The lock around the
    table of waits is taken and released in separate steps, so the probe of the kernel inside Wait and the
    Wait4 call outside the lock can meet in every order. */
module Reaper {
  import opened Options

  type Pid = int
  type Status = int

  /** A process: `id` tells apart the processes that share a pid over time; exit is its status once dead. */
  datatype Process = Process(id: nat, exit: Option<Status>)

  /** A proc entry: an RWMutex that is write-locked until the status is in, and the status. `id` is the process
      the probe saw, `origin` the one whose status is in (until then, `id`); `unlocks` counts Unlock calls, `misused`
      records one on a latch nobody held. */
  datatype Latch = Latch(pid: Pid, id: nat, locked: bool, ws: Status, origin: nat, unlocks: nat, misused: bool)

  datatype Waiter =
    | Away
    | Calling(pid: Pid)                    // Wait entered, lock not yet taken
    | Looking(pid: Pid)                    // lock held: is there an entry?
    | Probing(pid: Pid)                    // lock held, no entry: is the process there?
    | Creating(pid: Pid, id: nat)          // lock held, the probe saw process id
    | Leaving(pid: Pid, latch: nat)        // lock held, entry found or created
    | LeavingEmpty(pid: Pid)               // lock held, the probe found nothing
    | Blocked(pid: Pid, latch: nat)        // at RLock
    | Returned(pid: Pid, latch: nat, ws: Status)
    | ReturnedNil(pid: Pid)

  datatype Reaper =
    | Waiting                              // about to call Wait4
    | Holding(pid: Pid, id: nat, ws: Status)    // Wait4 has returned; lock not yet taken
    | Delivering(pid: Pid, id: nat, ws: Status) // lock held
    | Deleting(pid: Pid)                   // lock held, latch unlocked, entry still in the table
    | Releasing                            // lock held, nothing left to do

  datatype Owner = Free | ByWaiter(i: nat) | ByReaper(i: nat)

  datatype System = System(
    processes: map<Pid, Process>,
    next: nat,
    reported: map<nat, Status>,            // what Wait4 said of each process
    table: map<Pid, nat>,                  // waits.w, as indices into latches
    latches: seq<Latch>,
    lock: Owner,
    waiters: seq<Waiter>,
    reapers: seq<Reaper>)

  datatype Action =
    | Fork(pid: Pid)                       // of a pid that no reaper has in hand
    | Reuse(pid: Pid)                      // of any pid the kernel has free
    | Exit(pid: Pid, ws: Status)
    | Call(i: nat, pid: Pid)
    | Wait(i: nat)                         // the next step of waiter i
    | Reap(i: nat, pid: Pid)               // the next step of reaper i; Wait4 picks pid

  /** A reaper has taken a process out of the kernel and not yet delivered its status. */
  predicate InHand(r: Reaper) {
    r.Holding? || r.Delivering?
  }

  predicate Pending(r: Reaper, pid: Pid) {
    InHand(r) && r.pid == pid
  }

  predicate PidInHand(s: System, pid: Pid) {
    exists i :: 0 <= i < |s.reapers| && Pending(s.reapers[i], pid)
  }

  function SetWaiter(s: System, i: nat, w: Waiter, lock: Owner): System
    requires i < |s.waiters|
  {
    s.(waiters := s.waiters[i := w], lock := lock)
  }

  function SetReaper(s: System, i: nat, r: Reaper, lock: Owner): System
    requires i < |s.reapers|
  {
    s.(reapers := s.reapers[i := r], lock := lock)
  }

  /** One step of Wait. */
  function WaitStep(s: System, i: nat): (s': System)
    requires i < |s.waiters|
    ensures |s'.waiters| == |s.waiters|
  {
    match s.waiters[i]
    case Calling(pid) => if s.lock == Free then SetWaiter(s, i, Looking(pid), ByWaiter(i)) else s
    case Looking(pid) => SetWaiter(s, i, if pid in s.table then Leaving(pid, s.table[pid]) else Probing(pid), s.lock)
    case Probing(pid) =>
      SetWaiter(s, i, if pid in s.processes then Creating(pid, s.processes[pid].id) else LeavingEmpty(pid), s.lock)
    case Creating(pid, id) =>
      SetWaiter(s.(table := s.table[pid := |s.latches|], latches := s.latches + [Latch(pid, id, true, 0, id, 0, false)]),
                i, Leaving(pid, |s.latches|), s.lock)
    case Leaving(pid, l) => SetWaiter(s, i, Blocked(pid, l), Free)
    case LeavingEmpty(pid) => SetWaiter(s, i, ReturnedNil(pid), Free)
    case Blocked(pid, l) =>
      if l < |s.latches| && !s.latches[l].locked then SetWaiter(s, i, Returned(pid, l, s.latches[l].ws), s.lock) else s
    case _ => s
  }

  /** Status in, TryLock, Unlock. */
  function Release(l: Latch, ws: Status, id: nat): Latch {
    l.(ws := ws, origin := id, locked := false, unlocks := l.unlocks + 1, misused := l.misused || !l.locked)
  }

  /** One step of waitWithPid. */
  function ReapStep(s: System, i: nat, pid: Pid): (s': System)
    requires i < |s.reapers|
    ensures |s'.reapers| == |s.reapers|
  {
    match s.reapers[i]
    case Waiting =>
      if pid in s.processes && s.processes[pid].exit.Some? then
        var p := s.processes[pid];
        SetReaper(s.(processes := s.processes - {pid}, reported := s.reported[p.id := p.exit.value]),
                  i, Holding(pid, p.id, p.exit.value), s.lock)
      else s
    case Holding(q, id, ws) => if s.lock == Free then SetReaper(s, i, Delivering(q, id, ws), ByReaper(i)) else s
    case Delivering(q, id, ws) =>
      if q in s.table && s.table[q] < |s.latches| then
        var l := s.table[q];
        SetReaper(s.(latches := s.latches[l := Release(s.latches[l], ws, id)]), i, Deleting(q), s.lock)
      else SetReaper(s, i, Releasing, s.lock)
    case Deleting(q) => SetReaper(s.(table := s.table - {q}), i, Releasing, s.lock)
    case Releasing => SetReaper(s, i, Waiting, Free)
  }

  /** A pid is free for a new process when no process has it and no reaper is about to deliver it. */
  function Act(s: System, a: Action): System {
    match a
    case Fork(pid) =>
      if pid in s.processes || PidInHand(s, pid) then s
      else s.(processes := s.processes[pid := Process(s.next, None)], next := s.next + 1)
    case Reuse(pid) =>
      if pid in s.processes then s
      else s.(processes := s.processes[pid := Process(s.next, None)], next := s.next + 1)
    case Exit(pid, ws) =>
      if pid in s.processes && s.processes[pid].exit.None?
      then s.(processes := s.processes[pid := s.processes[pid].(exit := Some(ws))]) else s
    case Call(i, pid) =>
      if i < |s.waiters| && (s.waiters[i].Away? || s.waiters[i].Returned? || s.waiters[i].ReturnedNil?)
      then s.(waiters := s.waiters[i := Calling(pid)]) else s
    case Wait(i) => if i < |s.waiters| then WaitStep(s, i) else s
    case Reap(i, pid) => if i < |s.reapers| then ReapStep(s, i, pid) else s
  }

  function ActAll(s: System, schedule: seq<Action>): System
    decreases |schedule|
  {
    if schedule == [] then s else ActAll(Act(s, schedule[0]), schedule[1..])
  }

  ghost predicate Init(s: System) {
    && s.processes == map[] && s.reported == map[] && s.table == map[] && s.latches == [] && s.lock == Free
    && (forall i :: 0 <= i < |s.waiters| ==> s.waiters[i] == Away)
    && forall i :: 0 <= i < |s.reapers| ==> s.reapers[i] == Waiting
  }

  // ---- the invariant

  predicate WaiterLocked(w: Waiter) {
    w.Looking? || w.Probing? || w.Creating? || w.Leaving? || w.LeavingEmpty?
  }

  predicate ReaperLocked(r: Reaper) {
    r.Delivering? || r.Deleting? || r.Releasing?
  }

  ghost predicate LockOk(s: System) {
    && (forall i :: 0 <= i < |s.waiters| ==> (WaiterLocked(s.waiters[i]) <==> s.lock == ByWaiter(i)))
    && forall i :: 0 <= i < |s.reapers| ==> (ReaperLocked(s.reapers[i]) <==> s.lock == ByReaper(i))
  }

  ghost predicate KernelOk(s: System) {
    && (forall p :: p in s.processes ==> s.processes[p].id < s.next && s.processes[p].id !in s.reported)
    && (forall p, q :: p in s.processes && q in s.processes && s.processes[p].id == s.processes[q].id ==> p == q)
    && (forall id :: id in s.reported ==> id < s.next)
  }

  /** A status in hand is the one reported, and no two reapers have one process. */
  ghost predicate ReapersOk(s: System) {
    && (forall i :: 0 <= i < |s.reapers| && InHand(s.reapers[i]) ==>
         s.reapers[i].id in s.reported && s.reported[s.reapers[i].id] == s.reapers[i].ws)
    && (forall i, j | 0 <= i < |s.reapers| && 0 <= j < |s.reapers| ::
         InHand(s.reapers[i]) && InHand(s.reapers[j]) && s.reapers[i].id == s.reapers[j].id ==> i == j)
    && forall i :: 0 <= i < |s.reapers| && s.reapers[i].Deleting? ==>
         var p := s.reapers[i].pid;
         p in s.table && s.table[p] < |s.latches| && !s.latches[s.table[p]].locked
  }

  /** Process id of that pid is still unreaped in the kernel, or in the hands of a reaper about to deliver it. */
  ghost predicate Awaited(s: System, pid: Pid, id: nat) {
    || (pid in s.processes && s.processes[pid].id == id)
    || exists i :: 0 <= i < |s.reapers| && Pending(s.reapers[i], pid) && s.reapers[i].id == id
  }

  /** A latch is write-locked until its one Unlock, which put a reported status in. */
  ghost predicate LatchesOk(s: System) {
    forall l :: 0 <= l < |s.latches| ==>
      var x := s.latches[l];
      && !x.misused
      && (x.locked ==> x.unlocks == 0 && x.origin == x.id && x.pid in s.table && s.table[x.pid] == l)
      && (!x.locked ==> x.unlocks == 1 && x.origin in s.reported && x.ws == s.reported[x.origin])
  }

  ghost predicate TableOk(s: System) {
    forall p :: p in s.table ==>
      && s.table[p] < |s.latches| && s.latches[s.table[p]].pid == p
      && if s.latches[s.table[p]].locked then Awaited(s, p, s.latches[s.table[p]].id)
         else exists i :: 0 <= i < |s.reapers| && s.reapers[i] == Deleting(p)
  }

  ghost predicate WaitersOk(s: System) {
    forall i :: 0 <= i < |s.waiters| ==> WaiterOk(s, s.waiters[i])
  }

  ghost predicate WaiterOk(s: System, w: Waiter) {
    match w
    case Probing(pid) => pid !in s.table
    case Creating(pid, id) => pid !in s.table && Awaited(s, pid, id)
    case Leaving(pid, l) => l < |s.latches| && s.latches[l].pid == pid
    case Blocked(pid, l) => l < |s.latches| && s.latches[l].pid == pid
    case Returned(pid, l, ws) =>
      && l < |s.latches| && s.latches[l].pid == pid && !s.latches[l].locked && s.latches[l].ws == ws
    case _ => true
  }

  ghost predicate Invariant(s: System) {
    LockOk(s) && KernelOk(s) && ReapersOk(s) && LatchesOk(s) && TableOk(s) && WaitersOk(s)
  }

  // ---- every step keeps it

  /** While a waiter holds the lock no reaper is delivering or deleting. */
  lemma LockExcludes(s: System, i: nat)
    requires LockOk(s) && i < |s.waiters| && WaiterLocked(s.waiters[i])
    ensures forall j :: 0 <= j < |s.reapers| ==> !ReaperLocked(s.reapers[j])
  {
  }

  /** While a reaper holds the lock no other one does. */
  lemma OnlyReaper(s: System, i: nat)
    requires LockOk(s) && i < |s.reapers| && ReaperLocked(s.reapers[i])
    ensures forall j :: 0 <= j < |s.reapers| && j != i ==> !ReaperLocked(s.reapers[j])
  {
  }

  lemma ForkKeeps(s: System, pid: Pid)
    requires Invariant(s)
    ensures Invariant(Act(s, Reuse(pid)))
  {
    var s' := Act(s, Reuse(pid));
    forall p, id | Awaited(s, p, id)
      ensures Awaited(s', p, id)
    {
    }
    assert forall w :: WaiterOk(s, w) ==> WaiterOk(s', w);
  }

  lemma ExitKeeps(s: System, pid: Pid, ws: Status)
    requires Invariant(s)
    ensures Invariant(Act(s, Exit(pid, ws)))
  {
    var s' := Act(s, Exit(pid, ws));
    forall p, id | Awaited(s, p, id)
      ensures Awaited(s', p, id)
    {
    }
    assert forall w :: WaiterOk(s, w) ==> WaiterOk(s', w);
  }

  /** The kernel, the table, the latches and the reapers do not look at waiters or the lock. */
  lemma WaitersApart(s: System, s': System)
    requires s' == s.(waiters := s'.waiters, lock := s'.lock)
    ensures KernelOk(s) ==> KernelOk(s')
    ensures ReapersOk(s) ==> ReapersOk(s')
    ensures LatchesOk(s) ==> LatchesOk(s')
    ensures TableOk(s) ==> TableOk(s')
    ensures forall w :: WaiterOk(s, w) <==> WaiterOk(s', w)
  {
    assert forall p, id :: Awaited(s, p, id) <==> Awaited(s', p, id);
  }

  lemma CallKeeps(s: System, i: nat, pid: Pid)
    requires Invariant(s)
    ensures Invariant(Act(s, Call(i, pid)))
  {
    hide KernelOk, ReapersOk, LatchesOk, TableOk;
    WaitersApart(s, Act(s, Call(i, pid)));
  }

  lemma WaitKeeps(s: System, i: nat)
    requires Invariant(s) && i < |s.waiters|
    ensures Invariant(WaitStep(s, i))
  {
    if s.waiters[i].Creating? {
      CreateKeeps(s, i);
    } else {
      OtherWaitKeeps(s, i);
    }
  }

  /** The other steps of Wait touch neither the kernel nor the table nor a latch. */
  lemma OtherWaitKeeps(s: System, i: nat)
    requires Invariant(s) && i < |s.waiters| && !s.waiters[i].Creating?
    ensures Invariant(WaitStep(s, i))
  {
    hide KernelOk, ReapersOk, LatchesOk;
    var s' := WaitStep(s, i);
    assert s' == SetWaiter(s, i, s'.waiters[i], s'.lock);
    WaitersApart(s, s');
    assert WaiterOk(s, s.waiters[i]);
  }

  lemma CreateKeeps(s: System, i: nat)
    requires Invariant(s) && i < |s.waiters| && s.waiters[i].Creating?
    ensures Invariant(WaitStep(s, i))
  {
    var s' := WaitStep(s, i);
    var w := s.waiters[i];
    LockExcludes(s, i);
    forall p, id | Awaited(s, p, id)
      ensures Awaited(s', p, id)
    {
    }
    assert WaiterOk(s, w);
    forall j | 0 <= j < |s.waiters|
      ensures WaiterOk(s', s'.waiters[j])
    {
      assert WaiterOk(s, s.waiters[j]);
    }
  }

  lemma ReapKeeps(s: System, i: nat, pid: Pid)
    requires Invariant(s) && i < |s.reapers|
    ensures Invariant(ReapStep(s, i, pid))
  {
    match s.reapers[i]
    case Waiting => Wait4Keeps(s, i, pid);
    case Holding(_, _, _) => TakeLockKeeps(s, i, pid);
    case Delivering(_, _, _) => DeliverKeeps(s, i, pid);
    case Deleting(_) => DeleteKeeps(s, i, pid);
    case Releasing => ReleaseKeeps(s, i, pid);
  }

  lemma Wait4Keeps(s: System, i: nat, pid: Pid)
    requires Invariant(s) && i < |s.reapers| && s.reapers[i].Waiting?
    ensures Invariant(ReapStep(s, i, pid))
  {
    var s' := ReapStep(s, i, pid);
    if s' != s {
      assert Pending(s'.reapers[i], pid);
      forall p, id | Awaited(s, p, id)
        ensures Awaited(s', p, id)
      {
        if !(p in s.processes && s.processes[p].id == id) {
          var j :| 0 <= j < |s.reapers| && Pending(s.reapers[j], p) && s.reapers[j].id == id;
          assert s'.reapers[j] == s.reapers[j];
        }
      }
      forall j | 0 <= j < |s.reapers| && s.reapers[j].Deleting?
        ensures s'.reapers[j] == s.reapers[j]
      {
      }
      assert forall w :: WaiterOk(s, w) ==> WaiterOk(s', w);
    }
  }

  lemma TakeLockKeeps(s: System, i: nat, pid: Pid)
    requires Invariant(s) && i < |s.reapers| && s.reapers[i].Holding?
    ensures Invariant(ReapStep(s, i, pid))
  {
    var s' := ReapStep(s, i, pid);
    forall p, id | Awaited(s, p, id)
      ensures Awaited(s', p, id)
    {
      if !(p in s.processes && s.processes[p].id == id) {
        var j :| 0 <= j < |s.reapers| && Pending(s.reapers[j], p) && s.reapers[j].id == id;
        assert Pending(s'.reapers[j], p) && s'.reapers[j].id == id;
      }
    }
    forall j | 0 <= j < |s.reapers| && s.reapers[j].Deleting?
      ensures s'.reapers[j] == s.reapers[j]
    {
    }
    assert forall w :: WaiterOk(s, w) ==> WaiterOk(s', w);
  }

  lemma DeliverWaiters(s: System, i: nat, pid: Pid)
    requires Invariant(s) && i < |s.reapers| && s.reapers[i].Delivering?
    ensures WaitersOk(ReapStep(s, i, pid))
  {
    hide KernelOk, Awaited;
    var s' := ReapStep(s, i, pid);
    var r := s.reapers[i];
    OnlyReaper(s, i);
    if r.pid in s.table {
      assert s.latches[s.table[r.pid]].locked;
    }
    forall j | 0 <= j < |s.waiters|
      ensures WaiterOk(s', s'.waiters[j])
    {
      assert WaiterOk(s, s.waiters[j]) && !WaiterLocked(s.waiters[j]);
    }
  }

  lemma DeliverKeeps(s: System, i: nat, pid: Pid)
    requires Invariant(s) && i < |s.reapers| && s.reapers[i].Delivering?
    ensures Invariant(ReapStep(s, i, pid))
  {
    var s' := ReapStep(s, i, pid);
    var r := s.reapers[i];
    OnlyReaper(s, i);
    if r.pid in s.table {
      assert s.latches[s.table[r.pid]].locked;
    }
    assert s'.reapers[i] == if r.pid in s.table then Deleting(r.pid) else Releasing;
    forall p, id | Awaited(s, p, id) && p != r.pid
      ensures Awaited(s', p, id)
    {
      if !(p in s.processes && s.processes[p].id == id) {
        var j :| 0 <= j < |s.reapers| && Pending(s.reapers[j], p) && s.reapers[j].id == id;
        assert s'.reapers[j] == s.reapers[j];
      }
    }
    DeliverWaiters(s, i, pid);
    forall p | p in s'.table
      ensures if s'.latches[s'.table[p]].locked then Awaited(s', p, s'.latches[s'.table[p]].id)
              else exists j :: 0 <= j < |s'.reapers| && s'.reapers[j] == Deleting(p)
    {
      if p != r.pid {
        assert s'.latches[s.table[p]] == s.latches[s.table[p]];
        if !s.latches[s.table[p]].locked {
          assert false;
        }
      }
    }
  }

  lemma DeleteKeeps(s: System, i: nat, pid: Pid)
    requires Invariant(s) && i < |s.reapers| && s.reapers[i].Deleting?
    ensures Invariant(ReapStep(s, i, pid))
  {
    var s' := ReapStep(s, i, pid);
    var q := s.reapers[i].pid;
    forall p, id | Awaited(s, p, id)
      ensures Awaited(s', p, id)
    {
      if !(p in s.processes && s.processes[p].id == id) {
        var j :| 0 <= j < |s.reapers| && Pending(s.reapers[j], p) && s.reapers[j].id == id;
        assert s'.reapers[j] == s.reapers[j];
      }
    }
    OnlyReaper(s, i);
    forall j | 0 <= j < |s.waiters|
      ensures WaiterOk(s', s'.waiters[j])
    {
      assert WaiterOk(s, s.waiters[j]) && !WaiterLocked(s.waiters[j]);
    }
  }

  lemma ReleaseKeeps(s: System, i: nat, pid: Pid)
    requires Invariant(s) && i < |s.reapers| && s.reapers[i].Releasing?
    ensures Invariant(ReapStep(s, i, pid))
  {
    var s' := ReapStep(s, i, pid);
    forall p, id | Awaited(s, p, id)
      ensures Awaited(s', p, id)
    {
      if !(p in s.processes && s.processes[p].id == id) {
        var j :| 0 <= j < |s.reapers| && Pending(s.reapers[j], p) && s.reapers[j].id == id;
        assert s'.reapers[j] == s.reapers[j];
      }
    }
    OnlyReaper(s, i);
    assert forall w :: WaiterOk(s, w) ==> WaiterOk(s', w);
  }

  lemma ActKeeps(s: System, a: Action)
    requires Invariant(s)
    ensures Invariant(Act(s, a))
  {
    match a
    case Fork(pid) => ForkKeeps(s, pid);
    case Reuse(pid) => ForkKeeps(s, pid);
    case Exit(pid, ws) => ExitKeeps(s, pid, ws);
    case Call(i, pid) => CallKeeps(s, i, pid);
    case Wait(i) => if i < |s.waiters| { WaitKeeps(s, i); }
    case Reap(i, pid) => if i < |s.reapers| { ReapKeeps(s, i, pid); }
  }

  lemma {:induction false} EveryScheduleKeeps(s: System, schedule: seq<Action>)
    requires Invariant(s)
    ensures Invariant(ActAll(s, schedule))
    decreases |schedule|
  {
    if schedule != [] {
      ActKeeps(s, schedule[0]);
      EveryScheduleKeeps(Act(s, schedule[0]), schedule[1..]);
    }
  }

  // ---- what it means for the callers of Wait

  /** No wakeup is lost: in every reachable state, the process a blocked waiter waits for is either still
      unreaped in the kernel or in the hands of a reaper about to deliver it, or its latch is already open. */
  lemma NoLostWakeup(s0: System, schedule: seq<Action>, i: nat)
    requires Init(s0)
    ensures var s := ActAll(s0, schedule);
            i < |s.waiters| && s.waiters[i].Blocked? ==>
              var w := s.waiters[i];
              && w.latch < |s.latches| && s.latches[w.latch].pid == w.pid
              && (s.latches[w.latch].locked ==> Awaited(s, w.pid, s.latches[w.latch].id))
  {
    EveryScheduleKeeps(s0, schedule);
    var s := ActAll(s0, schedule);
    if i < |s.waiters| && s.waiters[i].Blocked? {
      assert WaiterOk(s, s.waiters[i]);
    }
  }

  /** Each latch is unlocked at most once, and only while write-locked. */
  lemma UnlockedOnce(s0: System, schedule: seq<Action>, l: nat)
    requires Init(s0)
    ensures var s := ActAll(s0, schedule);
            l < |s.latches| ==> !s.latches[l].misused && s.latches[l].unlocks == if s.latches[l].locked then 0 else 1
  {
    EveryScheduleKeeps(s0, schedule);
  }

  // ---- where no pid is reused before its delivery

  /** Every pid in hand is out of the kernel and in one hand only, and every open latch was opened for its own
      process. */
  ghost predicate Orderly(s: System) {
    && (forall i, p | 0 <= i < |s.reapers| :: Pending(s.reapers[i], p) ==> p !in s.processes)
    && (forall i, j, p | 0 <= i < |s.reapers| && 0 <= j < |s.reapers| ::
         Pending(s.reapers[i], p) && Pending(s.reapers[j], p) ==> i == j)
    && forall l :: 0 <= l < |s.latches| ==> s.latches[l].origin == s.latches[l].id
  }

  /** The latch found under the pid is the one registered for the process in hand. */
  lemma EntryMatches(s: System, i: nat)
    requires Invariant(s) && Orderly(s) && i < |s.reapers| && s.reapers[i].Delivering? && s.reapers[i].pid in s.table
    ensures s.latches[s.table[s.reapers[i].pid]].id == s.reapers[i].id
  {
    var r := s.reapers[i];
    OnlyReaper(s, i);
    assert Pending(r, r.pid);
    assert Awaited(s, r.pid, s.latches[s.table[r.pid]].id);
  }

  lemma ReapOrderly(s: System, i: nat, pid: Pid)
    requires Invariant(s) && Orderly(s) && i < |s.reapers|
    ensures Orderly(ReapStep(s, i, pid))
  {
    var s' := ReapStep(s, i, pid);
    if s.reapers[i].Delivering? && s.reapers[i].pid in s.table {
      EntryMatches(s, i);
    }
    forall j, p | 0 <= j < |s'.reapers| && Pending(s'.reapers[j], p)
      ensures p !in s'.processes && (j != i ==> Pending(s.reapers[j], p))
      ensures j == i ==> (Pending(s.reapers[i], p) || (s.reapers[i].Waiting? && p in s.processes))
    {
    }
  }

  lemma ActOrderly(s: System, a: Action)
    requires Invariant(s) && Orderly(s) && !a.Reuse?
    ensures Orderly(Act(s, a))
  {
    match a
    case Reap(i, pid) => if i < |s.reapers| { ReapOrderly(s, i, pid); }
    case Wait(i) => if i < |s.waiters| { assert WaitStep(s, i).reapers == s.reapers; }
    case _ =>
  }

  /** No pid is given to a new process while a reaper still has its last one in hand. */
  predicate Careful(schedule: seq<Action>) {
    forall a :: a in schedule ==> !a.Reuse?
  }

  lemma {:induction false} CarefulIsOrderly(s: System, schedule: seq<Action>)
    requires Invariant(s) && Orderly(s) && Careful(schedule)
    ensures Orderly(ActAll(s, schedule))
    decreases |schedule|
  {
    if schedule != [] {
      assert schedule[0] in schedule;
      ActKeeps(s, schedule[0]);
      ActOrderly(s, schedule[0]);
      CarefulIsOrderly(Act(s, schedule[0]), schedule[1..]);
    }
  }

  /** Every waiter that returns a status returns the one Wait4 reported for the process its latch was made for. */
  lemma StatusIsTheReportedOne(s0: System, schedule: seq<Action>, i: nat)
    requires Init(s0) && Careful(schedule)
    ensures var s := ActAll(s0, schedule);
            i < |s.waiters| && s.waiters[i].Returned? ==>
              var w := s.waiters[i];
              && w.latch < |s.latches| && s.latches[w.latch].pid == w.pid
              && s.latches[w.latch].id in s.reported && w.ws == s.reported[s.latches[w.latch].id]
  {
    EveryScheduleKeeps(s0, schedule);
    CarefulIsOrderly(s0, schedule);
    var s := ActAll(s0, schedule);
    if i < |s.waiters| && s.waiters[i].Returned? {
      assert WaiterOk(s, s.waiters[i]);
    }
  }

  // ---- delivery works

  /** Reaper j's whole turn: Wait4, lock, deliver, delete, unlock. */
  function Turn(s: System, j: nat, pid: Pid): System
    requires j < |s.reapers|
  {
    ReapStep(ReapStep(ReapStep(ReapStep(ReapStep(s, j, pid), j, pid), j, pid), j, pid), j, pid)
  }

  /** Once its process is dead, one undisturbed turn of any idle reaper lets every waiter blocked on the latch
      return with the status of that process; afterwards the pid has no entry and the reaper is idle again. */
  lemma TurnDelivers(s: System, i: nat, j: nat, pid: Pid, l: nat)
    requires Invariant(s) && Orderly(s) && s.lock == Free && i < |s.waiters| && j < |s.reapers| && s.reapers[j].Waiting?
    requires s.waiters[i] == Blocked(pid, l) && l < |s.latches| && s.latches[l].locked
    requires pid in s.processes && s.processes[pid].exit.Some?
    ensures var s' := Turn(s, j, pid);
            && s'.lock == Free && s'.reapers == s.reapers && pid !in s'.table && |s'.waiters| == |s.waiters|
            && WaitStep(s', i).waiters[i] == Returned(pid, l, s.processes[pid].exit.value)
  {
    assert WaiterOk(s, s.waiters[i]);
    var p := s.processes[pid];
    var ws := p.exit.value;
    var s1 := ReapStep(s, j, pid);
    assert s1.reapers[j] == Holding(pid, p.id, ws) && s1.lock == Free;
    var s2 := ReapStep(s1, j, pid);
    assert s2.reapers[j] == Delivering(pid, p.id, ws);
    var s3 := ReapStep(s2, j, pid);
    assert s3.reapers[j] == Deleting(pid) && !s3.latches[l].locked && s3.latches[l].ws == ws;
    var s4 := ReapStep(s3, j, pid);
    assert s4.reapers[j] == Releasing;
    assert ReapStep(s4, j, pid).reapers == s.reapers;
  }

  // ---- who gets an entry, and who gets nil

  /** Waiter i's whole turn: lock, look, and probe and create if need be, unlock. */
  function Entry(s: System, i: nat): (s': System)
    requires i < |s.waiters|
    ensures |s'.waiters| == |s.waiters|
  {
    Waits(s, i, 5)
  }

  function Waits(s: System, i: nat, n: nat): (s': System)
    requires i < |s.waiters|
    ensures |s'.waiters| == |s.waiters|
    decreases n
  {
    if n == 0 then s else Waits(WaitStep(s, i), i, n - 1)
  }

  /** A waiter that is let through ends up at the entry of its pid when there is one, at a fresh latch, locked and
      entered in the table, when there is none but the kernel still has the process, alive or dead, and with nil
      when there is neither. Nothing else changes and the lock is free again. */
  lemma WaitGetsEntry(s: System, i: nat, pid: Pid)
    requires Invariant(s) && s.lock == Free && i < |s.waiters| && s.waiters[i] == Calling(pid)
    ensures var s' := Entry(s, i);
            && s' == s.(waiters := s.waiters[i := s'.waiters[i]], table := s'.table, latches := s'.latches)
            && if pid in s.table then
                 s'.waiters[i] == Blocked(pid, s.table[pid]) && s'.table == s.table && s'.latches == s.latches
               else if pid in s.processes then
                 && s'.waiters[i] == Blocked(pid, |s.latches|) && s'.table == s.table[pid := |s.latches|]
                 && |s'.latches| == |s.latches| + 1 && s'.latches[..|s.latches|] == s.latches
                 && s'.latches[|s.latches|].locked
                 && s'.latches[|s.latches|].pid == pid && s'.latches[|s.latches|].id == s.processes[pid].id
               else s'.waiters[i] == ReturnedNil(pid) && s'.table == s.table && s'.latches == s.latches
  {
    hide Invariant;
    EntryIsLocked(s);
    var s1 := WaitStep(s, i);
    assert s1.waiters[i] == Looking(pid);
    var s2 := WaitStep(s1, i);
    var s3 := WaitStep(s2, i);
    var s4 := WaitStep(s3, i);
    assert Entry(s, i) == WaitStep(s4, i) by {
      hide WaitStep;
      assert Waits(s, i, 5) == Waits(s1, i, 4) == Waits(s2, i, 3) == Waits(s3, i, 2) == Waits(s4, i, 1);
      assert Waits(WaitStep(s4, i), i, 0) == WaitStep(s4, i);
    }
    if pid in s.table {
      assert s2.waiters[i] == Leaving(pid, s.table[pid]);
      assert s3.waiters[i] == Blocked(pid, s.table[pid]);
      assert s.latches[s.table[pid]].locked;
      assert s4 == s3;
    } else {
      assert s2.waiters[i] == Probing(pid);
      if pid in s.processes {
        assert s3.waiters[i] == Creating(pid, s.processes[pid].id);
        assert s4.waiters[i] == Leaving(pid, |s.latches|);
      } else {
        assert s4.waiters[i] == ReturnedNil(pid);
      }
    }
  }

  /** While nobody holds the lock every entry is still to be delivered. */
  lemma EntryIsLocked(s: System)
    requires Invariant(s) && s.lock == Free
    ensures forall p :: p in s.table ==> s.table[p] < |s.latches| && s.latches[s.table[p]].locked
  {
    forall j | 0 <= j < |s.reapers|
      ensures !s.reapers[j].Deleting?
    {
      assert !ReaperLocked(s.reapers[j]);
    }
  }

  predicate Empty(w: Waiter, pid: Pid) {
    w == LeavingEmpty(pid) || w == ReturnedNil(pid)
  }

  lemma EmptyFromProbe(s: System, a: Action, i: nat, pid: Pid)
    requires i < |s.waiters| && !Empty(s.waiters[i], pid)
    ensures |Act(s, a).waiters| == |s.waiters| && (Empty(Act(s, a).waiters[i], pid) ==> pid !in s.processes)
  {
    if a.Wait? && a.i == i {
    } else if !a.Call? {
      assert Act(s, a).waiters[i] == s.waiters[i];
    }
  }

  /** On every schedule: a call that comes back with nil saw the kernel without a process of that pid. */
  lemma {:induction false} NilMeansGone(s: System, schedule: seq<Action>, i: nat, pid: Pid) returns (k: nat)
    requires i < |s.waiters| && !Empty(s.waiters[i], pid)
    requires var s' := ActAll(s, schedule); i < |s'.waiters| && Empty(s'.waiters[i], pid)
    ensures k < |schedule| && pid !in ActAll(s, schedule[..k]).processes
    decreases |schedule|
  {
    var s1 := Act(s, schedule[0]);
    EmptyFromProbe(s, schedule[0], i, pid);
    hide Act;
    if Empty(s1.waiters[i], pid) {
      k := 0;
      assert schedule[..0] == [];
    } else {
      var j := NilMeansGone(s1, schedule[1..], i, pid);
      k := j + 1;
      assert schedule[..k][1..] == schedule[1..][..j];
    }
  }

  lemma {:induction false} ActAllSnoc(s: System, schedule: seq<Action>, a: Action)
    ensures ActAll(s, schedule + [a]) == Act(ActAll(s, schedule), a)
    decreases |schedule|
  {
    if schedule != [] {
      assert (schedule + [a])[1..] == schedule[1..] + [a];
      ActAllSnoc(Act(s, schedule[0]), schedule[1..], a);
    }
  }
}
