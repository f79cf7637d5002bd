/** How a unit reacts to the exit of its processes, word by word: the Restart= words, RemainAfterExit, the poweroff
    actions, and a unit that is being stopped. */
module EngineExit {
  import opened Engine
  import opened EngineActs
  import opened EngineSettled
  import opened EngineOrder
  import opened EngineMonitor

  /** Some process ended with an exit status other than 0. */
  ghost predicate Bad(ans: seq<Status>) {
    exists i :: 0 <= i < |ans| && ans[i].Exit? && ans[i].code != 0
  }

  /** A running unit without poweroff actions that nobody upholds and that does not remain: it comes to a restart
      just as its word says, and otherwise its run is over. */
  lemma RestartWords(c: Config, w: World, d: Name, ans: seq<Status>)
    requires Alive(c, w, d) && LogsOpen(c) && c.defs[d].Names(UpheldBy) == {}
    ensures var word, r := c.defs[d].restart, Exited(c, w, d, ans);
            && (word == "always" ==> r.Asleep?)
            && (word in {"on-failure", "on-abnormal", "on-watchdog", "on-abort"} ==> r.Asleep? == Bad(ans))
            && (word == "on-success" ==> r.Asleep? == !Bad(ans))
            && (word !in {"always", "on-failure", "on-abnormal", "on-watchdog", "on-abort", "on-success"} ==> r.Ended?)
            && (r.Asleep? ==> r.w.IsState(d, Restarting))
            && (r.Ended? ==> Over(c, r.w, d))
  {
    hide EndRun, Over;
    if Successor(c, w, d, ans) {
      FallsAsleep(c, w, d, ans);
    } else {
      LastGeneration(c, w, d, ans);
    }
  }

  /** One that remains after exit stays Running unless its word asks for a restart, or for its end: on-success
      takes a failure for the end, and so does a word that never restarts; and on-success does not restart it. */
  lemma RemainWords(c: Config, w: World, d: Name, ans: seq<Status>)
    requires Usable(c, w) && d in w.units && w.IsState(d, Running) && w.units[d].remain && LogsOpen(c)
    requires c.defs[d].Names(UpheldBy) == {}
    requires !("poweroff" <= c.defs[d].successAction) && !("poweroff" <= c.defs[d].failureAction)
    ensures var word, r := c.defs[d].restart, Exited(c, w, d, ans);
            && r.Asleep? ==
               (word == "always" || (word in {"on-failure", "on-abnormal", "on-watchdog", "on-abort"} && Bad(ans)))
            && (r.Ended? ==>
                  if word == "always" || word in {"on-failure", "on-abnormal", "on-watchdog", "on-abort"} ||
                     !(Bad(ans) || (word != "on-success" && w.units[d].failed))
                  then r.w.IsState(d, Running) && r.w.log == w.log else Over(c, r.w, d))
  {
    hide EndRun, Over;
    EndRunIsOver(c, w.SetFailed(d, AnyFailed(ans)), d);
    EndRunIsOver(c, w, d);
  }

  /** A unit that is being stopped, or is already on its way back, is never restarted by the exit. */
  lemma StoppedIsNotRestarted(c: Config, w: World, d: Name, ans: seq<Status>)
    requires Usable(c, w) && d in w.units && w.units[d].state in {Stopped, Stopping, Restarting}
    ensures Exited(c, w, d, ans).Ended?
  {
  }

  /** Nor is one that was stopped, or caught by the shutdown, while it slept. */
  lemma SleepCutShort(c: Config, w: World, d: Name, mode: Mode)
    requires Usable(c, w) && d in w.units && (w.shutdown || w.IsState(d, Stopped))
    ensures Woken(c, w, d, mode) == w
  {
  }

  // ---- the poweroff actions

  ghost predicate NoPowerOff(w: World, w': World) {
    w.log <= w'.log && forall i :: |w.log| <= i < |w'.log| && w'.log[i].Did? ==> w'.log[i].act != PowerOff
  }

  lemma NoPowerOffComposes(w0: World, w1: World, w2: World)
    requires NoPowerOff(w0, w1) && NoPowerOff(w1, w2)
    ensures NoPowerOff(w0, w2)
  {
    forall i | |w0.log| <= i < |w2.log| && w2.log[i].Did?
      ensures w2.log[i].act != PowerOff
    {
      if i < |w1.log| {
        assert w1.log[i] == w2.log[i];
      }
    }
  }

  lemma StopNoPowerOff(c: Config, w: World, d: Name)
    requires w.units.Keys == c.defs.Keys
    ensures NoPowerOff(w, Stop(c, w, d, true).w)
  {
    hide Stop;
    if d in w.units && d !in w.masked && c.outcome(w.log, d, OpenLog) {
      StopDoes(c, w, d, true);
    } else {
      StopDoesNot(c, w, d);
    }
  }

  lemma {:induction false} StopNamesNoPowerOff(c: Config, w: World, names: seq<Name>)
    requires w.units.Keys == c.defs.Keys
    ensures NoPowerOff(w, StopNames(c, w, names))
    decreases |names|
  {
    hide Stop;
    if names != [] {
      var w1 := Stop(c, w, names[0], true).w;
      StopNoPowerOff(c, w, names[0]);
      StopNamesNoPowerOff(c, w1, names[1..]);
      NoPowerOffComposes(w, w1, StopNames(c, w1, names[1..]));
    }
  }

  lemma EndRunNoPowerOff(c: Config, w: World, d: Name)
    requires w.units.Keys == c.defs.Keys && d in w.units
    ensures NoPowerOff(w, EndRun(c, w, d))
  {
    hide StopNames;
    var w1 := w.Update(d, w.units[d].(state := Stopped, manual := false));
    var w2 := StopNames(c, w1, c.order(w1.log, d, BoundBy));
    StopNamesNoPowerOff(c, w1, c.order(w1.log, d, BoundBy));
    StopNamesNoPowerOff(c, w2, c.order(w2.log, d, ConsistsOf));
    NoPowerOffComposes(w1, w2, StopNames(c, w2, c.order(w2.log, d, ConsistsOf)));
  }

  /** The system is powered off just if the failure action says so and some process failed, or the success action
      does and none did; then nothing else happens, and otherwise no poweroff does. */
  lemma PowerOffIff(c: Config, w: World, d: Name, ans: seq<Status>)
    requires Usable(c, w) && d in w.units
    ensures var def, r := c.defs[d], Exited(c, w, d, ans);
            if (Bad(ans) && "poweroff" <= def.failureAction) || (!Bad(ans) && "poweroff" <= def.successAction)
            then r == Ended(w.Note(Did(d, PowerOff, w.RunningUnits()))) else NoPowerOff(w, r.w)
  {
    hide EndRun;
    var w1 := w.SetFailed(d, AnyFailed(ans));
    EndRunNoPowerOff(c, w, d);
    EndRunNoPowerOff(c, w1, d);
  }

  // ---- a restart that fails

  /** After its sleep the unit is started as it was before, by hand or not. If the start fails under "on-success", every
      loaded and unmasked unit bound to it or part of it is Stopped; in every other case nothing but the start happens. */
  lemma Wakes(c: Config, w: World, d: Name, mode: Mode)
    requires Usable(c, w) && d in w.units && !w.shutdown && !w.IsState(d, Stopped) && LogsOpen(c)
    ensures var o := Start(c, if mode == Always then w.SetFailed(d, false) else w, d, w.units[d].manual);
            if o.ok || mode != OnSuccess then Woken(c, w, d, mode) == o.w
            else
              forall x :: x in c.defs[d].Names(BoundBy) + c.defs[d].Names(ConsistsOf) && x in w.units && x !in w.masked ==>
                Woken(c, w, d, mode).IsState(x, Stopped)
  {
    hide Start, StopNames;
    var w1 := if mode == Always then w.SetFailed(d, false) else w;
    var o := Start(c, w1, d, w.units[d].manual);
    StartExtends(c, w1, d, w.units[d].manual);
    DependentsStop(c, o.w, d);
  }

  lemma DependentsStop(c: Config, w: World, d: Name)
    requires Usable(c, w) && d in w.units && LogsOpen(c)
    ensures forall x :: x in c.defs[d].Names(BoundBy) + c.defs[d].Names(ConsistsOf) && x in w.units && x !in w.masked ==>
              StopDependents(c, w, d).IsState(x, Stopped)
  {
    hide StopNames;
    var bound := c.order(w.log, d, BoundBy);
    var w1 := StopNames(c, w, bound);
    var parts := c.order(w1.log, d, ConsistsOf);
    forall x | x in c.defs[d].Names(BoundBy) + c.defs[d].Names(ConsistsOf) && x in w.units && x !in w.masked
      ensures StopDependents(c, w, d).IsState(x, Stopped)
    {
      StopNamesStops(c, w, bound, x);
      StopNamesStops(c, w1, parts, x);
    }
  }

  // ---- the order of the dependents

  /** Between w and w' only units of these names did anything. */
  ghost predicate Only(w: World, w': World, names: set<Name>) {
    w.log <= w'.log && forall i :: |w.log| <= i < |w'.log| ==> w'.log[i].Did? && w'.log[i].d in names
  }

  lemma OnlyComposes(w0: World, w1: World, w2: World, names: set<Name>)
    requires Only(w0, w1, names) && Only(w1, w2, names)
    ensures Only(w0, w2, names)
  {
    forall i | |w0.log| <= i < |w2.log|
      ensures w2.log[i].Did? && w2.log[i].d in names
    {
      if i < |w1.log| {
        assert w1.log[i] == w2.log[i];
      }
    }
  }

  lemma StopOnly(c: Config, w: World, d: Name, names: set<Name>)
    requires w.units.Keys == c.defs.Keys && d in names
    ensures Only(w, Stop(c, w, d, true).w, names)
  {
    hide Stop, StopDeeds;
    if d in w.units && d !in w.masked && c.outcome(w.log, d, OpenLog) {
      StopDoes(c, w, d, true);
    } else {
      StopDoesNot(c, w, d);
      if d !in w.units {
        NotLoadedStop(c, w, d);
      }
    }
  }

  lemma NotLoadedStop(c: Config, w: World, d: Name)
    requires w.units.Keys == c.defs.Keys && d !in w.units
    ensures Stop(c, w, d, true).w == w
  {
  }

  lemma {:induction false} StopNamesOnly(c: Config, w: World, list: seq<Name>, names: set<Name>)
    requires w.units.Keys == c.defs.Keys && forall x :: x in list ==> x in names
    ensures Only(w, StopNames(c, w, list), names)
    decreases |list|
  {
    hide Stop, Only;
    if list == [] {
      OnlyNothing(w, names);
    } else {
      var w1 := Stop(c, w, list[0], true).w;
      StopOnly(c, w, list[0], names);
      StopNamesOnly(c, w1, list[1..], names);
      OnlyComposes(w, w1, StopNames(c, w1, list[1..]), names);
    }
  }

  lemma OnlyNothing(w: World, names: set<Name>)
    ensures Only(w, w, names)
  {
  }

  /** Only the BoundBy and the ConsistsOf units are stopped, and once one that is not among the first has been, only the
      second follow. */
  lemma DependentsInOrder(c: Config, w: World, d: Name)
    requires Usable(c, w) && d in w.units
    ensures var w' := StopDependents(c, w, d);
            && Only(w, w', c.defs[d].Names(BoundBy) + c.defs[d].Names(ConsistsOf))
            && forall i, j :: |w.log| <= i < j < |w'.log| && w'.log[i].Did? && w'.log[i].d !in c.defs[d].Names(BoundBy) ==>
                 w'.log[j].Did? && w'.log[j].d in c.defs[d].Names(ConsistsOf)
  {
    hide StopNames;
    var bound := c.order(w.log, d, BoundBy);
    var w1 := StopNames(c, w, bound);
    var parts := c.order(w1.log, d, ConsistsOf);
    var w' := StopNames(c, w1, parts);
    StopNamesOnly(c, w, bound, c.defs[d].Names(BoundBy));
    StopNamesOnly(c, w1, parts, c.defs[d].Names(ConsistsOf));
    forall i | |w.log| <= i < |w'.log|
      ensures w'.log[i].Did? && if i < |w1.log| then w'.log[i].d in c.defs[d].Names(BoundBy)
                                else w'.log[i].d in c.defs[d].Names(ConsistsOf)
    {
      if i < |w1.log| {
        assert w1.log[i] == w'.log[i];
      }
    }
  }
}
