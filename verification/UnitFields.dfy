/** What the fields of a definition hold after a load, directive by directive: lists in full and in order, everything
    else as last given. */
module UnitFields {
  import opened Strings
  import opened UnitFile
  import D = Duration

  /** The values given to any of these names while the given section was open, when the lines start in section s. */
  function Given(names: set<string>, section: Section, s: Section, logical: seq<string>): seq<string>
    decreases |logical|
  {
    if logical == [] then []
    else if IsHeader(logical[0]) then Given(names, section, Header(logical[0]), logical[1..])
    else
      var a := ParseUnitLine(logical[0]);
      (if s == section && a.name in names then [a.val] else []) + Given(names, section, s, logical[1..])
  }

  function ForUnit(unit: string, vals: seq<string>): seq<string> {
    seq(|vals|, i requires 0 <= i < |vals| => Instance(unit, vals[i]))
  }

  /** The two environment lists keep their values as they stand, the lists of commands with the instance's name. */
  function AsKept(unit: string, name: string, vals: seq<string>): seq<string> {
    if name in {"ENVIRONMENT", "ENVIRONMENTFILE"} then vals else ForUnit(unit, vals)
  }

  function Last(vals: seq<string>): string
    requires vals != []
  {
    vals[|vals| - 1]
  }

  lemma StillOk(l: Load, unit: string, logical: seq<string>, round: D.Rounding)
    requires logical != [] && InterpretAll(l, unit, logical, round).ok
    ensures l.ok && Interpret(l, unit, logical[0], round).ok
  {
    if !l.ok {
      StopsThere(l, unit, logical, round);
    }
    var next := Interpret(l, unit, logical[0], round);
    if !next.ok {
      StopsThere(next, unit, logical[1..], round);
    }
  }

  // ---- one assignment

  /** A directive of the service section is no relation there. */
  lemma NoRelation(s: Section, name: string)
    ensures s.ServiceSection? ==> !AssignsRelation(s, name)
  {
  }

  lemma UnitListStep(l: Load, a: Assignment, name: string)
    ensures AssignUnit(l, a).section == l.section && AssignUnit(l, a).def.lists == l.def.lists
    ensures AssignUnit(l, a).def.spans == l.def.spans
    ensures a.name != "STOPWHENUNNEEDED" ==> AssignUnit(l, a).def.flags == l.def.flags
  {
    hide Lower;
  }

  lemma CommandStep(l: Load, unit: string, a: Assignment, round: D.Rounding)
    requires a.name in COMMANDS
    ensures a.name !in ENVIRONMENT
    ensures AssignService(l, unit, a, round) ==
            l.(def := l.def.(lists := l.def.lists[a.name := l.def.List(a.name) + [Instance(unit, a.val)]]))
  {
    hide Instance, Lower, SetSpan;
  }

  lemma EnvironmentStep(l: Load, unit: string, a: Assignment, round: D.Rounding)
    requires a.name in ENVIRONMENT
    ensures AssignService(l, unit, a, round) ==
            l.(def := l.def.(lists := l.def.lists[a.name := l.def.List(a.name) + [a.val]]))
  {
    hide Instance, Lower, SetSpan;
  }

  lemma NoListStep(l: Load, unit: string, a: Assignment, round: D.Rounding)
    requires a.name !in COMMANDS && a.name !in ENVIRONMENT
    ensures AssignService(l, unit, a, round).section == l.section
    ensures AssignService(l, unit, a, round).def.lists == l.def.lists
  {
    hide Instance, Lower, D.Parsed;
  }

  lemma ServiceListStep(l: Load, unit: string, a: Assignment, name: string, round: D.Rounding)
    requires name in {"EXECCONDITION", "EXECSTARTPRE", "EXECSTART", "EXECSTARTPOST", "EXECSTOPPRE", "EXECSTOP",
                      "EXECSTOPPOST", "ENVIRONMENT", "ENVIRONMENTFILE"}
    ensures AssignService(l, unit, a, round).section == l.section
    ensures AssignService(l, unit, a, round).def.List(name) ==
            if a.name == name
            then l.def.List(name) + AsKept(unit, name, [a.val])
            else l.def.List(name)
  {
    hide AssignService, Instance;
    if a.name in COMMANDS {
      CommandStep(l, unit, a, round);
    } else if a.name in ENVIRONMENT {
      EnvironmentStep(l, unit, a, round);
    } else {
      NoListStep(l, unit, a, round);
    }
  }

  lemma ListStep(l: Load, unit: string, a: Assignment, name: string, round: D.Rounding)
    requires name in {"EXECCONDITION", "EXECSTARTPRE", "EXECSTART", "EXECSTARTPOST", "EXECSTOPPRE", "EXECSTOP",
                      "EXECSTOPPOST", "ENVIRONMENT", "ENVIRONMENTFILE"}
    ensures Assign(l, unit, a, round).section == l.section
    ensures Assign(l, unit, a, round).def.List(name) ==
            if l.section.ServiceSection? && a.name == name
            then l.def.List(name) + AsKept(unit, name, [a.val])
            else l.def.List(name)
  {
    hide AssignUnit, AssignService, Instance, NamesIn, AssignsRelation;
    UnitListStep(l, a, name);
    ServiceListStep(l, unit, a, name, round);
    NoRelation(l.section, a.name);
  }

  lemma StringStep(l: Load, unit: string, a: Assignment, section: Section, name: string, round: D.Rounding)
    requires InStrings(section, name)
    ensures Assign(l, unit, a, round).section == l.section
    ensures if l.section == section && a.name == name
            then name in Assign(l, unit, a, round).def.strings && Assign(l, unit, a, round).def.strings[name] == a.val
            else SameEntry(name, l.def.strings, Assign(l, unit, a, round).def.strings)
  {
    hide AssignUnit, AssignService, NamesIn;
    UnitStringStep(l, a, section, name);
    ServiceStringStep(l, unit, a, section, name, round);
    StringNoRelation(section, name);
  }

  lemma StringNoRelation(section: Section, name: string)
    requires InStrings(section, name)
    ensures !AssignsRelation(section, name)
  {
  }

  lemma UnitStringStep(l: Load, a: Assignment, section: Section, name: string)
    requires InStrings(section, name)
    ensures AssignUnit(l, a).section == l.section
    ensures if section.UnitSection? && a.name == name then AssignUnit(l, a).def.strings == l.def.strings[name := a.val]
            else SameEntry(name, l.def.strings, AssignUnit(l, a).def.strings)
  {
    hide Lower;
  }

  lemma ServiceStringStep(l: Load, unit: string, a: Assignment, section: Section, name: string, round: D.Rounding)
    requires InStrings(section, name)
    ensures AssignService(l, unit, a, round).section == l.section
    ensures if section.ServiceSection? && a.name == name
            then AssignService(l, unit, a, round).def.strings == l.def.strings[name := a.val]
            else SameEntry(name, l.def.strings, AssignService(l, unit, a, round).def.strings)
  {
    hide Instance, Lower, D.Parsed;
  }

  ghost predicate SameEntry<T(!new)>(name: string, a: map<string, T>, b: map<string, T>) {
    (name in a <==> name in b) && (name in a ==> a[name] == b[name])
  }

  /** The directives whose value is kept as it is: three of the unit section, and these of the service section. */
  predicate InStrings(s: Section, name: string) {
    || (s.UnitSection? && name in {"DESCRIPTION", "FAILUREACTION", "SUCCESSACTION"})
    || (s.ServiceSection? && name in {
          "TYPE", "PIDFILE", "RESTART", "WORKINGDIRECTORY", "USER", "GROUP", "LIMITCPU", "LIMITFSIZE", "LIMITDATA",
          "LIMITSTACK", "LIMITCORE", "LIMITRSS", "LIMITNOFILE", "LIMITAS", "LIMITNPROC", "LIMITMEMLOCK", "LIMITLOCKS",
          "LIMITSIGPENDING", "LIMITMSGQUEUE", "LIMITNICE", "LIMITRTPRIO", "LIMITRTTIME"})
  }

  lemma FlagNoRelation()
    ensures !AssignsRelation(UnitSection, "STOPWHENUNNEEDED")
  {
  }

  lemma UnitFlagStep(l: Load, a: Assignment)
    ensures AssignUnit(l, a).section == l.section
    ensures AssignUnit(l, a).def.flags ==
            if a.name == "STOPWHENUNNEEDED" then l.def.flags[a.name := Lower(a.val) == "true"] else l.def.flags
  {
    hide Lower;
  }

  lemma ServiceFlagStep(l: Load, unit: string, a: Assignment, round: D.Rounding)
    ensures AssignService(l, unit, a, round).section == l.section
    ensures AssignService(l, unit, a, round).def.flags ==
            if a.name == "REMAINAFTEREXIT" then l.def.flags[a.name := Lower(a.val) == "true"] else l.def.flags
  {
    hide Lower, Instance, D.Parsed;
  }

  lemma FlagStep(l: Load, unit: string, a: Assignment, section: Section, name: string, round: D.Rounding)
    requires (section == ServiceSection && name == "REMAINAFTEREXIT") ||
             (section == UnitSection && name == "STOPWHENUNNEEDED")
    ensures Assign(l, unit, a, round).section == l.section
    ensures if l.section == section && a.name == name
            then name in Assign(l, unit, a, round).def.flags &&
                 Assign(l, unit, a, round).def.flags[name] == (Lower(a.val) == "true")
            else SameEntry(name, l.def.flags, Assign(l, unit, a, round).def.flags)
  {
    hide AssignUnit, AssignService, NamesIn, AssignsRelation, Lower;
    ServiceFlagStep(l, unit, a, round);
    UnitFlagStep(l, a);
    NoRelation(l.section, a.name);
    FlagNoRelation();
  }

  lemma OneSpanStep(l: Load, unit: string, a: Assignment, round: D.Rounding)
    requires a.name in {"RESTARTSEC", "TIMEOUTSEC", "TIMEOUTSTOPSEC"}
    ensures AssignService(l, unit, a, round) ==
            SetSpan(l, if a.name == "RESTARTSEC" then "RESTARTSEC" else "TIMEOUTSTOPSEC", a.val, round)
  {
    hide SetSpan, Instance, Lower;
  }

  lemma SpanSet(l: Load, field: string, val: string, round: D.Rounding)
    ensures SetSpan(l, field, val, round).section == l.section
    ensures forall other :: other != field ==> SameEntry(other, l.def.spans, SetSpan(l, field, val, round).def.spans)
  {
    hide D.Parsed;
  }

  lemma NoSpanStep(l: Load, unit: string, a: Assignment, round: D.Rounding)
    requires a.name !in {"RESTARTSEC", "TIMEOUTSEC", "TIMEOUTSTOPSEC"}
    ensures AssignService(l, unit, a, round).section == l.section
    ensures AssignService(l, unit, a, round).def.spans == l.def.spans
    ensures AssignService(l, unit, a, round).ok == l.ok
  {
    hide SetSpan, Instance, Lower;
  }

  lemma ServiceSpanStep(l: Load, unit: string, a: Assignment, names: set<string>, field: string, round: D.Rounding)
    requires (names == {"RESTARTSEC"} && field == "RESTARTSEC") ||
             (names == {"TIMEOUTSEC", "TIMEOUTSTOPSEC"} && field == "TIMEOUTSTOPSEC")
    ensures AssignService(l, unit, a, round).section == l.section
    ensures if a.name in names
            then AssignService(l, unit, a, round) == SetSpan(l, field, a.val, round)
            else SameEntry(field, l.def.spans, AssignService(l, unit, a, round).def.spans)
  {
    hide AssignService, SetSpan;
    if a.name in {"RESTARTSEC", "TIMEOUTSEC", "TIMEOUTSTOPSEC"} {
      OneSpanStep(l, unit, a, round);
      SpanSet(l, if a.name == "RESTARTSEC" then "RESTARTSEC" else "TIMEOUTSTOPSEC", a.val, round);
    } else {
      NoSpanStep(l, unit, a, round);
    }
  }

  lemma SpanStep(l: Load, unit: string, a: Assignment, names: set<string>, field: string, round: D.Rounding)
    requires (names == {"RESTARTSEC"} && field == "RESTARTSEC") ||
             (names == {"TIMEOUTSEC", "TIMEOUTSTOPSEC"} && field == "TIMEOUTSTOPSEC")
    requires Assign(l, unit, a, round).ok
    ensures Assign(l, unit, a, round).section == l.section
    ensures if l.section.ServiceSection? && a.name in names
            then D.Parsed(a.val, round).Ok? && field in Assign(l, unit, a, round).def.spans &&
                 Assign(l, unit, a, round).def.spans[field] == D.Parsed(a.val, round).v
            else SameEntry(field, l.def.spans, Assign(l, unit, a, round).def.spans)
  {
    hide AssignUnit, AssignService, NamesIn, AssignsRelation;
    NoRelation(l.section, a.name);
    UnitListStep(l, a, a.name);
    ServiceSpanStep(l, unit, a, names, field, round);
  }

  // ---- whole files

  /** After a load each list of commands holds what it held, then every value given to it in a service section, in
      order, with the instance's name put in; the two environment lists hold theirs as they stand. */
  lemma {:induction false} ListsGiven(l: Load, unit: string, logical: seq<string>, name: string, round: D.Rounding)
    requires InterpretAll(l, unit, logical, round).ok
    requires name in {"EXECCONDITION", "EXECSTARTPRE", "EXECSTART", "EXECSTARTPOST", "EXECSTOPPRE", "EXECSTOP",
                      "EXECSTOPPOST", "ENVIRONMENT", "ENVIRONMENTFILE"}
    ensures var given := Given({name}, ServiceSection, l.section, logical);
            InterpretAll(l, unit, logical, round).def.List(name) == l.def.List(name) + AsKept(unit, name, given)
    decreases |logical|
  {
    hide Assign, ParseUnitLine, IsHeader, Header, AsKept, Definition.List;
    if logical == [] {
      KeptNone(unit, name, l.def.List(name));
    } else {
      StillOk(l, unit, logical, round);
      var next := Interpret(l, unit, logical[0], round);
      ListsGiven(next, unit, logical[1..], name, round);
      if !IsHeader(logical[0]) {
        var a := ParseUnitLine(logical[0]);
        ListStep(l, unit, a, name, round);
        var rest := Given({name}, ServiceSection, l.section, logical[1..]);
        ForUnitFirst(unit, name, a.val, rest, l.def.List(name));
      }
    }
  }

  lemma KeptNone(unit: string, name: string, before: seq<string>)
    ensures before + AsKept(unit, name, []) == before
  {
  }

  lemma ForUnitFirst(unit: string, name: string, val: string, rest: seq<string>, before: seq<string>)
    ensures before + AsKept(unit, name, [val] + rest) == (before + AsKept(unit, name, [val])) + AsKept(unit, name, rest)
    ensures [] + rest == rest
  {
    hide Instance;
    assert ForUnit(unit, [val] + rest) == ForUnit(unit, [val]) + ForUnit(unit, rest);
  }

  /** A directive that is kept as it is holds what was last given to it in its section, or what it held before. */
  lemma {:induction false} StringsGiven(l: Load, unit: string, logical: seq<string>, section: Section, name: string,
                                        round: D.Rounding)
    requires InterpretAll(l, unit, logical, round).ok && InStrings(section, name)
    ensures var given := Given({name}, section, l.section, logical);
            var after := InterpretAll(l, unit, logical, round).def.strings;
            if given == [] then SameEntry(name, l.def.strings, after) else name in after && after[name] == Last(given)
    decreases |logical|
  {
    hide Assign, ParseUnitLine, Instance, Header;
    if logical != [] {
      StillOk(l, unit, logical, round);
      var next := Interpret(l, unit, logical[0], round);
      StringsGiven(next, unit, logical[1..], section, name, round);
      if !IsHeader(logical[0]) {
        var a := ParseUnitLine(logical[0]);
        StringStep(l, unit, a, section, name, round);
        var rest := Given({name}, section, l.section, logical[1..]);
        assert [] + rest == rest;
      }
    }
  }

  /** RemainAfterExit in a service section and StopWhenUnneeded in a unit section: true just if last given as true. */
  lemma {:induction false} FlagsGiven(l: Load, unit: string, logical: seq<string>, section: Section, name: string,
                                      round: D.Rounding)
    requires InterpretAll(l, unit, logical, round).ok
    requires (section == ServiceSection && name == "REMAINAFTEREXIT") ||
             (section == UnitSection && name == "STOPWHENUNNEEDED")
    ensures var given, after := Given({name}, section, l.section, logical), InterpretAll(l, unit, logical, round).def.flags;
            if given == [] then SameEntry(name, l.def.flags, after)
            else name in after && after[name] == (Lower(Last(given)) == "true")
    decreases |logical|
  {
    hide Assign, ParseUnitLine, Header, Lower;
    if logical != [] {
      StillOk(l, unit, logical, round);
      var next := Interpret(l, unit, logical[0], round);
      FlagsGiven(next, unit, logical[1..], section, name, round);
      if !IsHeader(logical[0]) {
        FlagStep(l, unit, ParseUnitLine(logical[0]), section, name, round);
        var rest := Given({name}, section, l.section, logical[1..]);
        assert [] + rest == rest;
      }
    }
  }

  /** The two spans, each in its own field: RestartSec, and TimeoutStopSec under either of its names. */
  lemma {:induction false} SpansGiven(l: Load, unit: string, logical: seq<string>, names: set<string>, field: string,
                                      round: D.Rounding)
    requires InterpretAll(l, unit, logical, round).ok
    requires (names == {"RESTARTSEC"} && field == "RESTARTSEC") ||
             (names == {"TIMEOUTSEC", "TIMEOUTSTOPSEC"} && field == "TIMEOUTSTOPSEC")
    ensures var given := Given(names, ServiceSection, l.section, logical);
            var after := InterpretAll(l, unit, logical, round).def.spans;
            if given == [] then SameEntry(field, l.def.spans, after)
            else D.Parsed(Last(given), round).Ok? && field in after && after[field] == D.Parsed(Last(given), round).v
    decreases |logical|
  {
    hide Assign, ParseUnitLine, Header, D.Parsed;
    if logical != [] {
      StillOk(l, unit, logical, round);
      var next := Interpret(l, unit, logical[0], round);
      SpansGiven(next, unit, logical[1..], names, field, round);
      if !IsHeader(logical[0]) {
        SpanStep(l, unit, ParseUnitLine(logical[0]), names, field, round);
        var rest := Given(names, ServiceSection, l.section, logical[1..]);
        assert [] + rest == rest;
      }
    }
  }

  /** A load goes well just if every span given in a service section is one the parser accepts. */
  lemma {:induction false} LoadsIff(l: Load, unit: string, logical: seq<string>, round: D.Rounding)
    requires l.ok
    ensures var given := Given({"RESTARTSEC", "TIMEOUTSEC", "TIMEOUTSTOPSEC"}, ServiceSection, l.section, logical);
            InterpretAll(l, unit, logical, round).ok <==> forall v :: v in given ==> D.Parsed(v, round).Ok?
    decreases |logical|
  {
    hide Assign, ParseUnitLine, Header, D.Parsed;
    if logical != [] {
      var next := Interpret(l, unit, logical[0], round);
      if !IsHeader(logical[0]) {
        AssignOk(l, unit, ParseUnitLine(logical[0]), round);
      }
      if next.ok {
        LoadsIff(next, unit, logical[1..], round);
      } else {
        StopsThere(next, unit, logical[1..], round);
      }
    }
  }

  lemma AssignOk(l: Load, unit: string, a: Assignment, round: D.Rounding)
    requires l.ok
    ensures Assign(l, unit, a, round).section == l.section
    ensures Assign(l, unit, a, round).ok <==>
            !(l.section.ServiceSection? && a.name in {"RESTARTSEC", "TIMEOUTSEC", "TIMEOUTSTOPSEC"} &&
              D.Parsed(a.val, round).Bad?)
  {
    hide AssignService, AssignUnit, NamesIn, AssignsRelation, D.Parsed, SetSpan;
    NoRelation(l.section, a.name);
    UnitListStep(l, a, a.name);
    UnitOk(l, a);
    ServiceOk(l, unit, a, round);
  }

  lemma UnitOk(l: Load, a: Assignment)
    ensures AssignUnit(l, a).ok == l.ok
  {
    hide Lower;
  }

  lemma ServiceOk(l: Load, unit: string, a: Assignment, round: D.Rounding)
    requires l.ok
    ensures AssignService(l, unit, a, round).section == l.section
    ensures AssignService(l, unit, a, round).ok <==>
            !(a.name in {"RESTARTSEC", "TIMEOUTSEC", "TIMEOUTSTOPSEC"} && D.Parsed(a.val, round).Bad?)
  {
    hide AssignService, D.Parsed, SetSpan;
    if a.name in {"RESTARTSEC", "TIMEOUTSEC", "TIMEOUTSTOPSEC"} {
      OneSpanStep(l, unit, a, round);
      SpanOk(l, if a.name == "RESTARTSEC" then "RESTARTSEC" else "TIMEOUTSTOPSEC", a.val, round);
    } else {
      NoSpanStep(l, unit, a, round);
    }
  }

  lemma SpanOk(l: Load, field: string, val: string, round: D.Rounding)
    requires l.ok
    ensures SetSpan(l, field, val, round).section == l.section
    ensures SetSpan(l, field, val, round).ok == D.Parsed(val, round).Ok?
  {
    hide D.Parsed;
  }

  lemma ReloadStep(l: Load, unit: string, a: Assignment, round: D.Rounding)
    ensures AssignService(l, unit, a, round).section == l.section
    ensures if a.name == "EXECRELOAD"
            then AssignService(l, unit, a, round).def.strings == l.def.strings[a.name := Instance(unit, a.val)]
            else SameEntry("EXECRELOAD", l.def.strings, AssignService(l, unit, a, round).def.strings)
  {
    hide Instance, Lower, D.Parsed;
  }

  lemma UnitNoReload(l: Load, a: Assignment)
    ensures AssignUnit(l, a).section == l.section
    ensures SameEntry("EXECRELOAD", l.def.strings, AssignUnit(l, a).def.strings)
  {
    hide Lower;
  }

  /** The reload command is the one last given in a service section, with the instance's name put in. */
  lemma {:induction false} ReloadGiven(l: Load, unit: string, logical: seq<string>, round: D.Rounding)
    requires InterpretAll(l, unit, logical, round).ok
    ensures var given := Given({"EXECRELOAD"}, ServiceSection, l.section, logical);
            var after := InterpretAll(l, unit, logical, round).def.strings;
            if given == [] then SameEntry("EXECRELOAD", l.def.strings, after)
            else "EXECRELOAD" in after && after["EXECRELOAD"] == Instance(unit, Last(given))
    decreases |logical|
  {
    hide AssignUnit, AssignService, ParseUnitLine, Header, Instance;
    if logical != [] {
      StillOk(l, unit, logical, round);
      var next := Interpret(l, unit, logical[0], round);
      ReloadGiven(next, unit, logical[1..], round);
      if !IsHeader(logical[0]) {
        var a := ParseUnitLine(logical[0]);
        NoRelation(l.section, a.name);
        ReloadStep(l, unit, a, round);
        UnitNoReload(l, a);
        var rest := Given({"EXECRELOAD"}, ServiceSection, l.section, logical[1..]);
        assert [] + rest == rest;
      }
    }
  }

  /** The first span that is refused ends the load: its field is 0 and no later line counts. */
  lemma RefusedSpan(l: Load, unit: string, logical: seq<string>, round: D.Rounding)
    requires l.ok && l.section == ServiceSection && logical != [] && !IsHeader(logical[0])
    requires var a := ParseUnitLine(logical[0]);
             a.name in {"RESTARTSEC", "TIMEOUTSEC", "TIMEOUTSTOPSEC"} && D.Parsed(a.val, round).Bad?
    ensures var field := if ParseUnitLine(logical[0]).name == "RESTARTSEC" then "RESTARTSEC" else "TIMEOUTSTOPSEC";
            InterpretAll(l, unit, logical, round) == Load(ServiceSection, l.def.(spans := l.def.spans[field := 0]), false)
  {
    hide AssignService, ParseUnitLine, Header, D.Parsed, AssignsRelation;
    var a := ParseUnitLine(logical[0]);
    NoRelation(l.section, a.name);
    OneSpanStep(l, unit, a, round);
    StopsThere(Interpret(l, unit, logical[0], round), unit, logical[1..], round);
  }
}
