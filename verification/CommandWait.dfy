/** Running a command and waiting for it: goroutines in procwait.Run against any number of reapers, with pids
    that are never reused. The entry of a command is in the table before the command starts, but a reaper finds it
    by the pid in cmd.Process, which is written by the starting goroutine without the lock. */
module CommandWait {
  import opened Options

  type Pid = nat
  type Status = int

  datatype Runner =
    | Fresh                              // Run not yet called
    | Registered                         // entry in the table, its latch write-locked
    | Forked(pid: Pid)                   // the child exists, cmd.Process is still nil
    | Started(pid: Pid)                  // cmd.Process is set, waitCmd not yet at its lookup
    | Blocked(pid: Pid)                  // entry found; at RLock
    | Returned(pid: Pid, ws: Status)     // the latch was open
    | NotFound(pid: Pid)                 // the entry was gone: an error, and no status

  /** cmd.Process.Pid as a reaper can see it. */
  function Seen(r: Runner): Option<Pid> {
    match r
    case Started(pid) => Some(pid)
    case Blocked(pid) => Some(pid)
    case Returned(pid, _) => Some(pid)
    case NotFound(pid) => Some(pid)
    case _ => None
  }

  /** What a command's latch holds once open. */
  datatype Latch = Locked | Open(ws: Status)

  datatype Reaper =
    | Waiting
    | Holding(pid: Pid, ws: Status)                       // Wait4 has returned, lock not yet taken
    | Delivering(pid: Pid, ws: Status, todo: set<nat>)    // lock held, these entries still to be looked at

  datatype System = System(
    children: map<Pid, Option<Status>>,   // unreaped children; Some once dead
    next: Pid,
    reported: map<Pid, Status>,           // what Wait4 said
    table: set<nat>,                      // commands with an entry
    latches: seq<Latch>,                  // by command
    runners: seq<Runner>,                 // by command
    lock: Option<nat>,                    // the reaper holding it; the other critical sections are one step
    reapers: seq<Reaper>)

  datatype Action = Run(i: nat) | Exit(pid: Pid, ws: Status) | Reap(j: nat, pid: Pid) | Look(j: nat, i: nat)

  function SetRunner(s: System, i: nat, r: Runner): System
    requires i < |s.runners|
  {
    s.(runners := s.runners[i := r])
  }

  /** The next step of command i's goroutine. */
  function RunStep(s: System, i: nat): System
    requires i < |s.runners| == |s.latches|
  {
    match s.runners[i]
    case Fresh => if s.lock.None? then SetRunner(s, i, Registered).(table := s.table + {i}) else s
    case Registered => SetRunner(s, i, Forked(s.next)).(children := s.children[s.next := None], next := s.next + 1)
    case Forked(pid) => SetRunner(s, i, Started(pid))
    case Started(pid) =>
      if s.lock.Some? then s else SetRunner(s, i, if i in s.table then Blocked(pid) else NotFound(pid))
    case Blocked(pid) => if s.latches[i].Open? then SetRunner(s, i, Returned(pid, s.latches[i].ws)) else s
    case _ => s
  }

  /** Reaper j takes a dead child from the kernel, takes the lock, or releases it once all entries are done. */
  function ReapStep(s: System, j: nat, pid: Pid): System
    requires j < |s.reapers|
  {
    match s.reapers[j]
    case Waiting =>
      if pid in s.children && s.children[pid].Some? then
        var ws := s.children[pid].value;
        s.(children := s.children - {pid}, reported := s.reported[pid := ws], reapers := s.reapers[j := Holding(pid, ws)])
      else s
    case Holding(p, ws) =>
      if s.lock.None? then s.(lock := Some(j), reapers := s.reapers[j := Delivering(p, ws, s.table)]) else s
    case Delivering(_, _, todo) =>
      if todo == {} then s.(lock := None, reapers := s.reapers[j := Waiting]) else s
  }

  /** Reaper j looks at entry i: if the command's pid is the one, its latch opens and the entry goes. */
  function LookStep(s: System, j: nat, i: nat): System
    requires j < |s.reapers| && i < |s.runners| == |s.latches|
  {
    var r := s.reapers[j];
    if !r.Delivering? || i !in r.todo then s
    else
      var s1 := s.(reapers := s.reapers[j := r.(todo := r.todo - {i})]);
      if Seen(s.runners[i]) == Some(r.pid) then s1.(latches := s.latches[i := Open(r.ws)], table := s.table - {i}) else s1
  }

  function Act(s: System, a: Action): (s': System)
    requires |s.runners| == |s.latches|
    ensures |s'.runners| == |s'.latches| == |s.runners|
  {
    match a
    case Run(i) => if i < |s.runners| then RunStep(s, i) else s
    case Exit(pid, ws) =>
      if pid in s.children && s.children[pid].None? then s.(children := s.children[pid := Some(ws)]) else s
    case Reap(j, pid) => if j < |s.reapers| then ReapStep(s, j, pid) else s
    case Look(j, i) => if j < |s.reapers| && i < |s.runners| then LookStep(s, j, i) else s
  }

  function ActAll(s: System, schedule: seq<Action>): (s': System)
    requires |s.runners| == |s.latches|
    ensures |s'.runners| == |s'.latches| == |s.runners|
    decreases |schedule|
  {
    if schedule == [] then s else ActAll(Act(s, schedule[0]), schedule[1..])
  }

  ghost predicate Init(s: System) {
    && s.children == map[] && s.reported == map[] && s.table == {} && s.lock == None && |s.runners| == |s.latches|
    && (forall i :: 0 <= i < |s.runners| ==> s.runners[i] == Fresh && s.latches[i] == Locked)
    && forall j :: 0 <= j < |s.reapers| ==> s.reapers[j] == Waiting
  }

  // ---- what every step keeps

  ghost predicate RunnerOk(s: System, i: nat)
    requires i < |s.runners| == |s.latches|
  {
    var r := s.runners[i];
    && (r.Returned? ==> r.pid in s.reported && r.ws == s.reported[r.pid])
    && (s.latches[i].Open? ==>
          Seen(r).Some? && Seen(r).value in s.reported && s.latches[i].ws == s.reported[Seen(r).value])
    && (i in s.table ==> s.latches[i] == Locked && r != Fresh)
    && (i !in s.table ==> r == Fresh || s.latches[i].Open?)
  }

  ghost predicate ReaperOk(s: System, r: Reaper) {
    !r.Waiting? ==> r.pid in s.reported && s.reported[r.pid] == r.ws
  }

  ghost predicate Invariant(s: System) {
    && |s.runners| == |s.latches|
    && (forall p :: p in s.children ==> p < s.next && p !in s.reported)
    && (forall p :: p in s.reported ==> p < s.next)
    && (forall i :: 0 <= i < |s.runners| ==> RunnerOk(s, i))
    && (forall j :: 0 <= j < |s.reapers| ==> ReaperOk(s, s.reapers[j]))
  }

  lemma RunKeeps(s: System, i: nat)
    requires Invariant(s) && i < |s.runners|
    ensures Invariant(RunStep(s, i))
  {
    var s' := RunStep(s, i);
    forall k | 0 <= k < |s'.runners|
      ensures RunnerOk(s', k)
    {
      assert RunnerOk(s, k) && RunnerOk(s, i);
    }
    forall j | 0 <= j < |s'.reapers|
      ensures ReaperOk(s', s'.reapers[j])
    {
      assert ReaperOk(s, s.reapers[j]);
    }
  }

  lemma ReapKeeps(s: System, j: nat, pid: Pid)
    requires Invariant(s) && j < |s.reapers|
    ensures Invariant(ReapStep(s, j, pid))
  {
    var s' := ReapStep(s, j, pid);
    forall k | 0 <= k < |s'.runners|
      ensures RunnerOk(s', k)
    {
      assert RunnerOk(s, k);
    }
    forall k | 0 <= k < |s'.reapers|
      ensures ReaperOk(s', s'.reapers[k])
    {
      assert ReaperOk(s, s.reapers[k]) && ReaperOk(s, s.reapers[j]);
    }
  }

  lemma LookKeeps(s: System, j: nat, i: nat)
    requires Invariant(s) && j < |s.reapers| && i < |s.runners|
    ensures Invariant(LookStep(s, j, i))
  {
    var s' := LookStep(s, j, i);
    assert ReaperOk(s, s.reapers[j]);
    forall k | 0 <= k < |s'.runners|
      ensures RunnerOk(s', k)
    {
      assert RunnerOk(s, k);
    }
    forall k | 0 <= k < |s'.reapers|
      ensures ReaperOk(s', s'.reapers[k])
    {
      assert ReaperOk(s, s.reapers[k]);
    }
  }

  lemma ExitKeeps(s: System, pid: Pid, ws: Status)
    requires Invariant(s)
    ensures Invariant(Act(s, Exit(pid, ws)))
  {
    var s' := Act(s, Exit(pid, ws));
    forall k | 0 <= k < |s'.runners|
      ensures RunnerOk(s', k)
    {
      assert RunnerOk(s, k);
    }
    forall k | 0 <= k < |s'.reapers|
      ensures ReaperOk(s', s'.reapers[k])
    {
      assert ReaperOk(s, s.reapers[k]);
    }
  }

  lemma ActKeeps(s: System, a: Action)
    requires Invariant(s)
    ensures Invariant(Act(s, a))
  {
    match a
    case Run(i) => if i < |s.runners| { RunKeeps(s, i); }
    case Exit(pid, ws) => ExitKeeps(s, pid, ws);
    case Reap(j, pid) => if j < |s.reapers| { ReapKeeps(s, j, pid); }
    case Look(j, i) => if j < |s.reapers| && i < |s.runners| { LookKeeps(s, j, i); }
  }

  lemma {:induction false} EveryScheduleKeeps(s: System, schedule: seq<Action>)
    requires Invariant(s)
    ensures Invariant(ActAll(s, schedule))
    decreases |schedule|
  {
    if schedule != [] {
      ActKeeps(s, schedule[0]);
      EveryScheduleKeeps(Act(s, schedule[0]), schedule[1..]);
    }
  }

  /** In every interleaving: a status that Run returns is the one Wait4 reported for its own child, and Run
      reports its command as not found only once that child's status has been reported too. */
  lemma ReturnedIsReported(s0: System, schedule: seq<Action>, i: nat)
    requires Init(s0) && i < |ActAll(s0, schedule).runners|
    ensures var s := ActAll(s0, schedule);
            var r := s.runners[i];
            && (r.Returned? ==> r.pid in s.reported && r.ws == s.reported[r.pid])
            && (r.NotFound? ==> r.pid in s.reported)
  {
    EveryScheduleKeeps(s0, schedule);
    var s := ActAll(s0, schedule);
    assert RunnerOk(s, i);
    NotFoundIsGone(s0, schedule, i);
  }

  lemma {:induction false} NotFoundIsGone(s: System, schedule: seq<Action>, i: nat)
    requires Invariant(s) && (i < |s.runners| && s.runners[i].NotFound? ==> s.latches[i].Open?)
    ensures var s' := ActAll(s, schedule); i < |s'.runners| && s'.runners[i].NotFound? ==> s'.latches[i].Open?
    decreases |schedule|
  {
    if schedule != [] {
      ActKeeps(s, schedule[0]);
      if i < |s.runners| {
        assert RunnerOk(s, i);
      }
      NotFoundIsGone(Act(s, schedule[0]), schedule[1..], i);
    }
  }

  // ---- schedules

  lemma {:induction false} ActAllConcat(s: System, a: seq<Action>, b: seq<Action>)
    requires |s.runners| == |s.latches|
    ensures ActAll(s, a + b) == ActAll(ActAll(s, a), b)
    decreases |a|
  {
    if a == [] {
      assert a + b == b;
    } else {
      assert (a + b)[1..] == a[1..] + b;
      ActAllConcat(Act(s, a[0]), a[1..], b);
    }
  }

  lemma Then(s0: System, w: seq<Action>, a: Action)
    requires |s0.runners| == |s0.latches|
    ensures ActAll(s0, w + [a]) == Act(ActAll(s0, w), a)
  {
    ActAllConcat(s0, w, [a]);
    assert [a][1..] == [];
  }
}
