/** What a stop and a start command do to the history and to their unit, event by event. */
module EngineActs {
  import opened Engine

  function Commands(phase: Phase, lines: seq<string>): seq<Act> {
    seq(|lines|, i requires 0 <= i < |lines| => Command(phase, lines[i]))
  }

  /** Everything one stop does once its log is open: each line of the three lists once and in order, then the
      wait for the processes. */
  function StopDeeds(def: Def): seq<Act> {
    Commands(ExecStopPre, def.stopPre) + Commands(ExecStop, def.stop) + Commands(ExecStopPost, def.stopPost) + [AwaitExit]
  }

  /** d does these things one after the other while the running units stay the same. */
  function Dids(d: Name, acts: seq<Act>, running: set<Name>): History {
    seq(|acts|, i requires 0 <= i < |acts| => Did(d, acts[i], running))
  }

  /** One of the answers to the events between w and w' was no. */
  ghost predicate SomeNo(c: Config, w: World, w': World) {
    exists i :: |w.log| <= i < |w'.log| && w'.log[i].Did? && !c.outcome(w'.log[..i], w'.log[i].d, w'.log[i].act)
  }

  /** Between w and w' unit d did these things, and an error is recorded just if there was one or an answer was no. */
  ghost predicate Does(c: Config, w: World, w': World, d: Name, acts: seq<Act>) {
    && w'.log == w.log + Dids(d, acts, w.RunningUnits()) && w'.RunningUnits() == w.RunningUnits()
    && d in w.units && d in w'.units && (w'.units[d].failed <==> w.units[d].failed || SomeNo(c, w, w'))
  }

  lemma DidsConcat(d: Name, a: seq<Act>, b: seq<Act>, running: set<Name>)
    ensures Dids(d, a + b, running) == Dids(d, a, running) + Dids(d, b, running)
  {
  }

  lemma SomeNoComposes(c: Config, w0: World, w1: World, w2: World)
    requires w0.log <= w1.log && w1.log <= w2.log
    ensures SomeNo(c, w0, w2) <==> SomeNo(c, w0, w1) || SomeNo(c, w1, w2)
  {
    forall i | 0 <= i < |w1.log|
      ensures w2.log[i] == w1.log[i] && w2.log[..i] == w1.log[..i]
    {
    }
  }

  lemma SameLogSameNo(c: Config, w: World, w1: World, w': World, w1': World)
    requires w.log == w1.log && w'.log == w1'.log
    ensures SomeNo(c, w, w') <==> SomeNo(c, w1, w1')
  {
  }

  lemma DoesComposes(c: Config, w0: World, w1: World, w2: World, d: Name, a: seq<Act>, b: seq<Act>)
    requires Does(c, w0, w1, d, a) && Does(c, w1, w2, d, b)
    ensures Does(c, w0, w2, d, a + b)
  {
    DidsConcat(d, a, b, w0.RunningUnits());
    SomeNoComposes(c, w0, w1, w2);
  }

  /** One act, whose answer no is recorded as an error. */
  lemma OneDeed(c: Config, w: World, d: Name, act: Act)
    requires d in w.units
    ensures var o := Perform(c, w, d, act); Does(c, w, if o.ok then o.w else o.w.SetFailed(d, true), d, [act])
  {
    var o := Perform(c, w, d, act);
    var w' := if o.ok then o.w else o.w.SetFailed(d, true);
    assert forall x :: w'.IsState(x, Running) <==> w.IsState(x, Running);
    assert w'.RunningUnits() == w.RunningUnits();
    assert w'.log[..|w.log|] == w.log && w'.log[|w.log|] == Did(d, act, w.RunningUnits());
  }

  lemma {:induction false} StopLinesDo(c: Config, w: World, d: Name, phase: Phase, lines: seq<string>)
    requires d in w.units
    ensures Does(c, w, RunStopLines(c, w, d, phase, lines), d, Commands(phase, lines))
    decreases |lines|
  {
    if lines == [] {
      assert Commands(phase, lines) == [] && w.log[..] == w.log;
    } else {
      var o := Perform(c, w, d, Command(phase, lines[0]));
      var w1 := if o.ok then o.w else o.w.SetFailed(d, true);
      OneDeed(c, w, d, Command(phase, lines[0]));
      StopLinesDo(c, w1, d, phase, lines[1..]);
      var w2 := RunStopLines(c, w1, d, phase, lines[1..]);
      DoesComposes(c, w, w1, w2, d, [Command(phase, lines[0])], Commands(phase, lines[1..]));
      assert Commands(phase, lines) == [Command(phase, lines[0])] + Commands(phase, lines[1..]);
    }
  }

  lemma RunStopDoes(c: Config, w: World, d: Name)
    requires w.units.Keys == c.defs.Keys && d in w.units
    ensures Does(c, w, RunStop(c, w, d), d, StopDeeds(c.defs[d]))
  {
    hide RunStopLines, Does, Commands;
    var def := c.defs[d];
    var w1 := RunStopLines(c, w, d, ExecStopPre, def.stopPre);
    StopLinesDo(c, w, d, ExecStopPre, def.stopPre);
    var w2 := RunStopLines(c, w1, d, ExecStop, def.stop);
    StopLinesDo(c, w1, d, ExecStop, def.stop);
    DoesComposes(c, w, w1, w2, d, Commands(ExecStopPre, def.stopPre), Commands(ExecStop, def.stop));
    var w3 := RunStopLines(c, w2, d, ExecStopPost, def.stopPost);
    StopLinesDo(c, w2, d, ExecStopPost, def.stopPost);
    DoesComposes(c, w, w2, w3, d, Commands(ExecStopPre, def.stopPre) + Commands(ExecStop, def.stop),
                 Commands(ExecStopPost, def.stopPost));
    OneDeed(c, w3, d, AwaitExit);
    DoesComposes(c, w, w3, RunStop(c, w, d), d,
                 Commands(ExecStopPre, def.stopPre) + Commands(ExecStop, def.stop) + Commands(ExecStopPost, def.stopPost),
                 [AwaitExit]);
  }

  lemma OpenedDoes(c: Config, w: World, d: Name)
    requires w.units.Keys == c.defs.Keys && d in w.units && c.outcome(w.log, d, OpenLog)
    ensures Does(c, w, RunStop(c, Perform(c, w, d, OpenLog).w, d), d, [OpenLog] + StopDeeds(c.defs[d]))
  {
    hide RunStop, StopDeeds, Does;
    OneDeed(c, w, d, OpenLog);
    var w1 := Perform(c, w, d, OpenLog).w;
    RunStopDoes(c, w1, d);
    DoesComposes(c, w, w1, RunStop(c, w1, d), d, [OpenLog], StopDeeds(c.defs[d]));
  }

  lemma DownNow(w: World, w1: World, d: Name)
    requires d in w.units && (w1 == w.SetState(d, Stopping) || (w1 == w && !w.IsState(d, Running)))
    ensures w1.RunningUnits() == w.RunningUnits() - {d}
  {
  }

  /** A stop whose log opens: it opens the log, runs every line of ExecStopPre, ExecStop and ExecStopPost, each once
      and in order whatever they return, and waits for the processes; nothing else happens, its unit is not Running
      meanwhile and Stopped afterwards, and an error is recorded just if there was one or an answer was no. */
  lemma StopDoes(c: Config, w: World, d: Name, announce: bool)
    requires w.units.Keys == c.defs.Keys && d in w.units && d !in w.masked && c.outcome(w.log, d, OpenLog)
    ensures var o := Stop(c, w, d, announce);
            && o.ok && o.w.IsState(d, Stopped)
            && o.w.log == w.log + Dids(d, [OpenLog] + StopDeeds(c.defs[d]), w.RunningUnits() - {d})
            && (o.w.units[d].failed <==> w.units[d].failed || SomeNo(c, w, o.w))
  {
    hide RunStop, StopDeeds, SomeNo, Perform;
    var w1 := if !w.IsState(d, Restarting) || announce then w.SetState(d, Stopping) else w;
    StopUnfolds(c, w, d, announce);
    DownNow(w, w1, d);
    OpenedDoes(c, w1, d);
    var w2 := RunStop(c, Perform(c, w1, d, OpenLog).w, d);
    SameLogSameNo(c, w, w1, w2.SetState(d, Stopped), w2);
  }

  /** Any other stop does nothing, but for asking for the log of a loaded and unmasked unit: that leaves the unit
      with an error, and Stopping if the stop was announced. */
  lemma StopDoesNot(c: Config, w: World, d: Name)
    requires w.units.Keys == c.defs.Keys && !(d in w.units && d !in w.masked && c.outcome(w.log, d, OpenLog))
    ensures var o := Stop(c, w, d, true);
            && (o.ok <==> d !in w.units)
            && (d in w.units && d !in w.masked ==>
                  && o.w.log == w.log + [Did(d, OpenLog, w.RunningUnits() - {d})]
                  && o.w.IsState(d, Stopping) && o.w.units[d].failed)
            && (d !in w.units || d in w.masked ==> o.w == w)
  {
    if d in w.units && d !in w.masked {
      assert w.SetState(d, Stopping).RunningUnits() == w.RunningUnits() - {d};
    }
  }

  /** A start command without a leading dash that is answered no, in a unit whose log opens then: the unit is stopped
      with all its stop commands, and the start gives up with an error. */
  lemma FailedCommandStops(c: Config, w: World, d: Name, phase: Phase, line: string)
    requires w.units.Keys == c.defs.Keys && d in w.units && d !in w.masked
    requires (line == "" || line[0] != '-') && !c.outcome(w.log, d, Command(phase, line))
    requires c.outcome(w.log + [Did(d, Command(phase, line), w.RunningUnits())], d, OpenLog)
    ensures var s := RunCommand(c, w, d, phase, line);
            && s.Return? && !s.o.ok && s.o.w.IsState(d, Stopped) && s.o.w.units[d].failed
            && s.o.w.log == w.log + [Did(d, Command(phase, line), w.RunningUnits())] +
                            Dids(d, [OpenLog] + StopDeeds(c.defs[d]), w.RunningUnits() - {d})
  {
    hide Stop, StopDeeds;
    StopDoes(c, Perform(c, w, d, Command(phase, line)).w, d, true);
  }

  /** Any other start command is one event, and the start goes on: one with a leading dash runs without it, and its
      failure is ignored. */
  lemma OtherCommandGoesOn(c: Config, w: World, d: Name, phase: Phase, line: string)
    requires w.units.Keys == c.defs.Keys && d in w.units
    requires (line != "" && line[0] == '-') || c.outcome(w.log, d, Command(phase, line))
    ensures var bare := if line != "" && line[0] == '-' then line[1..] else line;
            RunCommand(c, w, d, phase, line) == Continue(w.Note(Did(d, Command(phase, bare), w.RunningUnits())))
  {
  }
}
