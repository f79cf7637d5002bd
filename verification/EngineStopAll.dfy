/** Shutting everything down: the flag is set first, then each unit that is up or on its way is stopped. */
module EngineStopAll {
  import opened Graph
  import opened Engine
  import opened EngineSettled
  import opened EngineOrder

  predicate Down(u: Unit) {
    u.state == Stopped || u.state == Stopping
  }

  function StopUp(c: Config, w: World, d: Name): (w': World)
    requires w.units.Keys == c.defs.Keys && d in w.units
    ensures Extends(w, w')
  {
    if Down(w.units[d]) then w else Stop(c, w, d, true).w
  }

  /** The loop of `StopAll` over the list in some order. */
  function StopEach(c: Config, w: World, order: seq<Name>): (w': World)
    requires w.units.Keys == c.defs.Keys && forall d :: d in order ==> d in w.units
    ensures Extends(w, w')
    decreases |order|
  {
    if order == [] then w
    else
      var w1 := StopUp(c, w, order[0]);
      var w2 := StopEach(c, w1, order[1..]);
      ExtendsTransitive(w, w1, w2);
      w2
  }

  lemma {:induction false} StopEachSnoc(c: Config, w: World, order: seq<Name>, d: Name)
    requires w.units.Keys == c.defs.Keys && (forall x :: x in order ==> x in w.units) && d in w.units
    ensures StopEach(c, w, order + [d]) == StopUp(c, StopEach(c, w, order), d)
    decreases |order|
  {
    if order == [] {
      assert [d][1..] == [];
    } else {
      assert (order + [d])[1..] == order[1..] + [d];
      StopEachSnoc(c, StopUp(c, w, order[0]), order[1..], d);
    }
  }

  /** `StopAll`. */
  function StopAll(c: Config, w: World, order: seq<Name>): World
    requires w.units.Keys == c.defs.Keys && forall d :: d in order ==> d in w.units
  {
    StopEach(c, w.(shutdown := true), order)
  }

  /** What a stop makes of a unit's state: Stopped, or Stopping if its log does not open. */
  ghost predicate Stilled(c: Config, w: World, w': World, x: Name)
    requires x in w.units && x in w'.units
  {
    if x in w.masked || Down(w.units[x]) then w'.units[x] == w.units[x]
    else Down(w'.units[x]) && (LogsOpen(c) ==> w'.units[x].state == Stopped)
  }

  lemma {:induction false} StopEachStills(c: Config, w: World, order: seq<Name>, x: Name)
    requires w.units.Keys == c.defs.Keys && (forall d :: d in order ==> d in w.units) && x in w.units
    ensures var w' := StopEach(c, w, order);
            if x in order then Stilled(c, w, w', x) else w'.units[x] == w.units[x]
    ensures NoLaunch(c, w, StopEach(c, w, order))
    decreases |order|
  {
    if order != [] {
      var d := order[0];
      var w1 := StopUp(c, w, d);
      if !Down(w.units[d]) {
        StopLaunchesNothing(c, w, d, true);
      }
      StopEachStills(c, w1, order[1..], x);
      assert Stilled(c, w, w1, d);
      NoLaunchComposes(c, w, w1, StopEach(c, w, order));
    }
  }

  /** The system is down: the flag is set and every unit that is not masked is Stopped or Stopping. */
  ghost predicate AllDown(w: World) {
    w.shutdown && forall x :: x in w.units && x !in w.masked ==> Down(w.units[x])
  }

  /** In whatever order the list is walked: afterwards the flag is set and every unit that is not masked is
      down; it is Stopped if it was up and logs open; masked units and units already down are untouched; and
      no start command ran. */
  lemma StopAllStills(c: Config, w: World, order: seq<Name>)
    requires w.units.Keys == c.defs.Keys && IsOrder(order, w.units.Keys)
    ensures var w' := StopAll(c, w, order);
            && AllDown(w') && w'.units.Keys == w.units.Keys && w'.masked == w.masked
            && (forall x :: x in w.units ==> Stilled(c, w, w', x))
            && NoLaunch(c, w, w')
  {
    var w1 := w.(shutdown := true);
    forall x | x in w.units
      ensures Stilled(c, w, StopAll(c, w, order), x)
    {
      StopEachStills(c, w1, order, x);
    }
    if order == [] {
      assert |w.units.Keys| == 0;
    } else {
      StopEachStills(c, w1, order, order[0]);
    }
  }

  lemma StartRefused(c: Config, w: World, d: Name)
    requires c.Valid() && w.units.Keys == c.defs.Keys && w.shutdown && d in w.units
    ensures var o := Start(c, w, d, true); !o.ok && o.w.units == w.units && NoLaunch(c, w, o.w)
  {
  }

  /** What a call may do once the system is down: nothing up, nothing launched, masked units untouched. */
  ghost predicate Harmless(c: Config, w: World, w': World) {
    && AllDown(w') && NoLaunch(c, w, w')
    && w'.units.Keys == w.units.Keys
    && forall x :: x in w.masked && x in w.units ==> w'.units[x] == w.units[x]
  }

  lemma StopHarmless(c: Config, w: World, d: Name)
    requires w.units.Keys == c.defs.Keys && d in w.units && AllDown(w)
    ensures Harmless(c, w, Stop(c, w, d, true).w)
  {
    StopLaunchesNothing(c, w, d, true);
  }

  lemma RestartHarmless(c: Config, w: World, d: Name)
    requires c.Valid() && w.units.Keys == c.defs.Keys && d in w.units && AllDown(w)
    ensures Harmless(c, w, Restart(c, w, d).w)
  {
    hide Stop;
    if d !in w.masked && w.units[d].state == Stopped {
      var w1 := w.SetState(d, Restarting);
      StopSame(c, w, d);
      StopHarmless(c, w, d);
      var o := Stop(c, w, d, true);
      if o.ok {
        StartRefused(c, o.w, d);
        NoLaunchComposes(c, w, o.w, Start(c, o.w, d, true).w);
      }
    }
  }

  lemma CallWhenDown(c: Config, w: World, call: Call)
    requires c.Valid() && w.units.Keys == c.defs.Keys && call.d in w.units && AllDown(w)
    ensures Harmless(c, w, Apply(c, w, call))
  {
    match call {
      case StartCall(d) => StartRefused(c, w, d);
      case StopCall(d) => StopHarmless(c, w, d);
      case RestartCall(d) => RestartHarmless(c, w, d);
    }
  }

  /** Once down the system stays down: whatever is called afterwards, no unit that is not masked is ever
      up or on its way again, and no start command runs. */
  lemma {:induction false} DownForGood(c: Config, w: World, calls: seq<Call>)
    requires c.Valid() && w.units.Keys == c.defs.Keys && AllDown(w)
    requires forall call :: call in calls ==> call.d in w.units
    ensures AllDown(ApplyAll(c, w, calls)) && NoLaunch(c, w, ApplyAll(c, w, calls))
    decreases |calls|
  {
    if calls != [] {
      CallWhenDown(c, w, calls[0]);
      var w1 := Apply(c, w, calls[0]);
      DownForGood(c, w1, calls[1..]);
      NoLaunchComposes(c, w, w1, ApplyAll(c, w, calls));
    }
  }
}
