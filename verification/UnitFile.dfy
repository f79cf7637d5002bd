/** The loader of unit files: one loop over the lines that carries a section and a pending continuation. */
module UnitFile {
  import opened Strings
  import opened Options
  import D = Duration

  const BLANKS := {'\r', '\n', '\t', ' '}

  datatype Section = NoSection | UnitSection | ServiceSection | InstallSection | UnknownSection

  const RELATIONS := {
    "WANTS", "WANTEDBY", "REQUIRES", "REQUIREDBY", "REQUISITE", "REQUISITEOF", "BINDSTO", "BOUNDBY", "PARTOF",
    "CONSISTSOF", "UPHOLDS", "UPHELDBY", "CONFLICTS", "CONFLICTEDBY", "BEFORE", "AFTER", "ONFAILURE", "ONSUCCESS"}

  const INSTALL_RELATIONS := {"REQUIREDBY", "WANTEDBY", "UPHELDBY"}

  const UNIT_STRINGS := {"DESCRIPTION", "FAILUREACTION", "SUCCESSACTION"}

  const SERVICE_STRINGS := {
    "TYPE", "PIDFILE", "RESTART", "WORKINGDIRECTORY", "USER", "GROUP", "LIMITCPU", "LIMITFSIZE", "LIMITDATA",
    "LIMITSTACK", "LIMITCORE", "LIMITRSS", "LIMITNOFILE", "LIMITAS", "LIMITNPROC", "LIMITMEMLOCK", "LIMITLOCKS",
    "LIMITSIGPENDING", "LIMITMSGQUEUE", "LIMITNICE", "LIMITRTPRIO", "LIMITRTTIME"}

  const COMMANDS := {
    "EXECSTART", "EXECSTOP", "EXECSTARTPRE", "EXECSTARTPOST", "EXECSTOPPRE", "EXECSTOPPOST", "EXECCONDITION"}

  const ENVIRONMENT := {"ENVIRONMENT", "ENVIRONMENTFILE"}

  /** A definition, by directive. What was never assigned is absent and reads as empty. */
  datatype Definition = Definition(
    relations: map<string, set<string>>,
    strings: map<string, string>,
    lists: map<string, seq<string>>,
    flags: map<string, bool>,
    spans: map<string, int>)
  {
    function Names(relation: string): set<string> {
      if relation in relations then relations[relation] else {}
    }
    function List(name: string): seq<string> {
      if name in lists then lists[name] else []
    }
  }

  const EMPTY := Definition(map[], map[], map[], map[], map[])

  // ---- lines

  predicate IsComment(line: string) {
    var t := Trim(line, BLANKS);
    HasPrefix(t, ";") || HasPrefix(t, "#")
  }

  predicate Continues(line: string) {
    HasSuffix(Trim(line, BLANKS), "\\")
  }

  /** A line without its trailing blanks and backslash. */
  function Stem(line: string): string {
    TrimSuffix(TrimRight(line, BLANKS), "\\")
  }

  function Header(line: string): (s: Section)
  {
    var t := Trim(line, BLANKS);
    if Upper(t) == "[UNIT]" then UnitSection
    else if Upper(t) == "[SERVICE]" then ServiceSection
    else if Upper(t) == "[INSTALL]" then InstallSection
    else if HasPrefix(t, "[") && HasSuffix(t, "]") then UnknownSection
    else NoSection
  }

  /** A line that opens a section. */
  predicate IsHeader(line: string) {
    !Header(line).NoSection?
  }

  datatype Assignment = Assignment(name: string, val: string)

  /** parseUnitLine. */
  function ParseUnitLine(line: string): Assignment {
    var pieces := Split(line, '=');
    var name := Upper(Trim(pieces[0], BLANKS));
    if |pieces| == 1 then Assignment(name, "")
    else
      var right := Join(pieces[1..], '=');
      var t := Trim(right, {' '});
      if HasPrefix(t, "\"") && HasSuffix(t, "\"") then Assignment(name, Trim(t, {'"'}))
      else if HasPrefix(t, "'") && HasSuffix(t, "'") then Assignment(name, Trim(t, {'\''}))
      else Assignment(name, TrimLeft(right, {' '}))
  }

  // ---- directives

  /** What stands for %i and %I: the text after the first @ of the unit's name, up to the next. */
  function Instance(name: string, val: string): string {
    var pieces := Split(name, '@');
    if |pieces| > 1 then
      var inst := pieces[1];
      ReplaceAll(ReplaceAll(val, "%i", inst), "%I", inst)
    else val
  }

  /** The names in a relation's value: every space separates, so two in a row enclose an empty name. */
  function NamesIn(val: string): set<string> {
    set n | n in Split(val, ' ')
  }

  predicate AssignsRelation(s: Section, name: string) {
    (s.UnitSection? && name in RELATIONS) || (s.InstallSection? && name in INSTALL_RELATIONS)
  }

  /** Where the loader stands: its section, the definition so far, and whether no span was refused. */
  datatype Load = Load(section: Section, def: Definition, ok: bool)

  function SetSpan(l: Load, field: string, val: string, round: D.Rounding): Load {
    match D.Parsed(val, round)
    case Ok(v) => l.(def := l.def.(spans := l.def.spans[field := v]))
    case Bad => Load(l.section, l.def.(spans := l.def.spans[field := 0]), false)
  }

  function AssignUnit(l: Load, a: Assignment): Load {
    if a.name in UNIT_STRINGS then l.(def := l.def.(strings := l.def.strings[a.name := a.val]))
    else if a.name == "STOPWHENUNNEEDED" then
      l.(def := l.def.(flags := l.def.flags[a.name := Lower(a.val) == "true"]))
    else l
  }

  function AssignService(l: Load, unit: string, a: Assignment, round: D.Rounding): Load {
    if a.name in SERVICE_STRINGS then l.(def := l.def.(strings := l.def.strings[a.name := a.val]))
    else if a.name == "REMAINAFTEREXIT" then
      l.(def := l.def.(flags := l.def.flags[a.name := Lower(a.val) == "true"]))
    else if a.name in COMMANDS then
      l.(def := l.def.(lists := l.def.lists[a.name := l.def.List(a.name) + [Instance(unit, a.val)]]))
    else if a.name in ENVIRONMENT then
      l.(def := l.def.(lists := l.def.lists[a.name := l.def.List(a.name) + [a.val]]))
    else if a.name == "EXECRELOAD" then
      l.(def := l.def.(strings := l.def.strings[a.name := Instance(unit, a.val)]))
    else if a.name == "RESTARTSEC" then SetSpan(l, "RESTARTSEC", a.val, round)
    else if a.name == "TIMEOUTSEC" || a.name == "TIMEOUTSTOPSEC" then SetSpan(l, "TIMEOUTSTOPSEC", a.val, round)
    else l
  }

  function Assign(l: Load, unit: string, a: Assignment, round: D.Rounding): Load {
    if AssignsRelation(l.section, a.name) then
      var names := if a.val == "" then {} else l.def.Names(a.name) + NamesIn(a.val);
      l.(def := l.def.(relations := l.def.relations[a.name := names]))
    else
      match l.section
      case UnitSection => AssignUnit(l, a)
      case ServiceSection => AssignService(l, unit, a, round)
      case _ => l
  }

  // ---- the two phases

  /** First phase: comments go, and a line that ends in a backslash is joined to the next that is no comment. */
  function Logical(lines: seq<string>, pending: string): seq<string> {
    if lines == [] then []
    else if IsComment(lines[0]) then Logical(lines[1..], pending)
    else if Continues(lines[0]) then Logical(lines[1..], pending + Stem(lines[0]) + " ")
    else [if pending == "" then lines[0] else pending + Stem(lines[0])] + Logical(lines[1..], "")
  }

  /** The continuation left pending at the end of the lines. */
  function Pending(lines: seq<string>, pending: string): string {
    if lines == [] then pending
    else if IsComment(lines[0]) then Pending(lines[1..], pending)
    else if Continues(lines[0]) then Pending(lines[1..], pending + Stem(lines[0]) + " ")
    else Pending(lines[1..], "")
  }

  /** Second phase: one logical line opens a section or assigns in the current one. */
  function Interpret(l: Load, unit: string, line: string, round: D.Rounding): Load {
    if !l.ok then l
    else if IsHeader(line) then l.(section := Header(line))
    else Assign(l, unit, ParseUnitLine(line), round)
  }

  function InterpretAll(l: Load, unit: string, logical: seq<string>, round: D.Rounding): Load
    decreases |logical|
  {
    if logical == [] then l else InterpretAll(Interpret(l, unit, logical[0], round), unit, logical[1..], round)
  }

  function Loaded(unit: string, def: Definition, lines: seq<string>, round: D.Rounding): Load {
    InterpretAll(Load(NoSection, def, true), unit, Logical(lines, ""), round)
  }

  class Daemon {
    const name: string
    var def: Option<Definition>

    constructor (name: string)
      ensures this.name == name && def == None
    {
      this.name := name;
      def := None;
    }

    function Known(): Definition
      reads this
    {
      if def.Some? then def.value else EMPTY
    }

    /** `loadUnitFile`: a single pass, equal to the two phases one after the other. */
    method LoadUnitFile(lines: seq<string>, round: D.Rounding) returns (ok: bool)
      requires D.Sound(round)
      modifies this
      ensures def.Some?
      ensures var l := Loaded(name, old(Known()), lines, round); ok == l.ok && def.value == l.def
    {
      if def == None {
        def := Some(EMPTY);
      }
      ghost var start := Load(NoSection, def.value, true);
      var section := NoSection;
      var concat := "";
      assert lines[0..] == lines;
      for i := 0 to |lines|
        invariant def.Some?
        invariant InterpretAll(Load(section, def.value, true), name, Logical(lines[i..], concat), round) ==
                  InterpretAll(start, name, Logical(lines, ""), round)
      {
        var line := lines[i];
        assert lines[i..][0] == line && lines[i..][1..] == lines[i + 1..];
        if IsComment(line) {
          continue;
        }
        if Continues(line) {
          concat := concat + Stem(line) + " ";
          continue;
        }
        if concat != "" {
          line := concat + Stem(line);
          concat := "";
        }
        InterpretFirst(Load(section, def.value, true), name, line, Logical(lines[i + 1..], ""), round);
        if IsHeader(line) {
          section := Header(line);
          continue;
        }
        var accepted := Obey(section, ParseUnitLine(line), round);
        if !accepted {
          StopsThere(Load(section, def.value, false), name, Logical(lines[i + 1..], ""), round);
          return false;
        }
      }
      return true;
    }

    /** One assignment in the given section. */
    method Obey(section: Section, a: Assignment, round: D.Rounding) returns (ok: bool)
      requires def.Some? && D.Sound(round)
      modifies this
      ensures def.Some? && Load(section, def.value, ok) == Assign(Load(section, old(def.value), true), name, a, round)
    {
      if AssignsRelation(section, a.name) {
        var names := {};
        if a.val != "" {
          names := def.value.Names(a.name);
          var values := Split(a.val, ' ');
          for i := 0 to |values|
            invariant names == def.value.Names(a.name) + (set n | n in values[..i])
          {
            names := names + {values[i]};
          }
          assert values[..|values|] == values;
        }
        def := Some(def.value.(relations := def.value.relations[a.name := names]));
        return true;
      }
      match section {
        case UnitSection => ObeyUnit(a); return true;
        case ServiceSection => ok := ObeyService(a, round);
        case _ => return true;
      }
    }

    method SetString(field: string, val: string)
      requires def.Some?
      modifies this
      ensures def == Some(old(def.value).(strings := old(def.value).strings[field := val]))
    {
      def := Some(def.value.(strings := def.value.strings[field := val]));
    }

    method SetFlag(field: string, val: string)
      requires def.Some?
      modifies this
      ensures def == Some(old(def.value).(flags := old(def.value).flags[field := Lower(val) == "true"]))
    {
      if Lower(val) == "true" {
        def := Some(def.value.(flags := def.value.flags[field := true]));
      } else {
        def := Some(def.value.(flags := def.value.flags[field := false]));
      }
    }

    method Append(field: string, val: string)
      requires def.Some?
      modifies this
      ensures def == Some(old(def.value).(lists := old(def.value).lists[field := old(def.value).List(field) + [val]]))
    {
      def := Some(def.value.(lists := def.value.lists[field := def.value.List(field) + [val]]));
    }

    /** A span; one that is refused leaves 0 behind. */
    method StoreSpan(field: string, val: string, round: D.Rounding) returns (ok: bool)
      requires def.Some? && D.Sound(round)
      modifies this
      ensures def.Some? && old(def.value) == def.value.(spans := old(def.value).spans)
      ensures ok == D.Parsed(val, round).Ok?
      ensures def.value.spans == old(def.value).spans[field := if ok then D.Parsed(val, round).v else 0]
    {
      var r := D.ParseDuration(val, round);
      ok := r.Ok?;
      def := Some(def.value.(spans := def.value.spans[field := if r.Ok? then r.v else 0]));
    }

    /** A directive of the unit section that is no relation. */
    method ObeyUnit(a: Assignment)
      requires def.Some?
      modifies this
      ensures def.Some? && Load(UnitSection, def.value, true) == AssignUnit(Load(UnitSection, old(def.value), true), a)
    {
      if a.name in UNIT_STRINGS {
        SetString(a.name, a.val);
      } else if a.name == "STOPWHENUNNEEDED" {
        SetFlag(a.name, a.val);
      }
    }

    /** A directive of the service section. */
    method ObeyService(a: Assignment, round: D.Rounding) returns (ok: bool)
      requires def.Some? && D.Sound(round)
      modifies this
      ensures def.Some?
      ensures Load(ServiceSection, def.value, ok) ==
              AssignService(Load(ServiceSection, old(def.value), true), name, a, round)
    {
      ok := true;
      if a.name in SERVICE_STRINGS {
        SetString(a.name, a.val);
      } else if a.name == "REMAINAFTEREXIT" {
        SetFlag(a.name, a.val);
      } else if a.name in COMMANDS {
        Append(a.name, Instance(name, a.val));
      } else if a.name in ENVIRONMENT {
        Append(a.name, a.val);
      } else if a.name == "EXECRELOAD" {
        SetString(a.name, Instance(name, a.val));
      } else if a.name == "RESTARTSEC" {
        ok := StoreSpan("RESTARTSEC", a.val, round);
      } else if a.name == "TIMEOUTSEC" || a.name == "TIMEOUTSTOPSEC" {
        ok := StoreSpan("TIMEOUTSTOPSEC", a.val, round);
      }
    }
  }

  lemma InterpretFirst(l: Load, unit: string, line: string, rest: seq<string>, round: D.Rounding)
    ensures InterpretAll(l, unit, [line] + rest, round) == InterpretAll(Interpret(l, unit, line, round), unit, rest, round)
  {
    assert ([line] + rest)[1..] == rest;
  }

  lemma {:induction false} StopsThere(l: Load, unit: string, logical: seq<string>, round: D.Rounding)
    requires !l.ok
    ensures InterpretAll(l, unit, logical, round) == l
    decreases |logical|
  {
    if logical != [] {
      StopsThere(l, unit, logical[1..], round);
    }
  }

  // ---- both phases go through files from the front

  lemma {:induction false} LogicalConcat(a: seq<string>, b: seq<string>, pending: string)
    ensures Logical(a + b, pending) == Logical(a, pending) + Logical(b, Pending(a, pending))
    ensures Pending(a + b, pending) == Pending(b, Pending(a, pending))
    decreases |a|
  {
    if a == [] {
      assert a + b == b;
    } else {
      assert (a + b)[0] == a[0] && (a + b)[1..] == a[1..] + b;
      var next := if IsComment(a[0]) then pending
                  else if Continues(a[0]) then pending + Stem(a[0]) + " " else "";
      LogicalConcat(a[1..], b, next);
    }
  }

  lemma {:induction false} InterpretConcat(l: Load, unit: string, a: seq<string>, b: seq<string>, round: D.Rounding)
    ensures InterpretAll(l, unit, a + b, round) == InterpretAll(InterpretAll(l, unit, a, round), unit, b, round)
    decreases |a|
  {
    if a == [] {
      assert a + b == b;
    } else {
      assert (a + b)[0] == a[0] && (a + b)[1..] == a[1..] + b;
      InterpretConcat(Interpret(l, unit, a[0], round), unit, a[1..], b, round);
    }
  }

  /** A comment line may stand anywhere, even inside a continuation: the definition stays the same. */
  lemma CommentsChangeNothing(unit: string, def: Definition, a: seq<string>, comment: string, b: seq<string>,
                              round: D.Rounding)
    requires IsComment(comment)
    ensures Loaded(unit, def, a + [comment] + b, round) == Loaded(unit, def, a + b, round)
  {
    var p := Pending(a, "");
    LogicalConcat(a, b, "");
    LogicalConcat(a, [comment] + b, "");
    assert a + [comment] + b == a + ([comment] + b);
    assert ([comment] + b)[1..] == b;
    assert Logical([comment] + b, p) == Logical(b, p);
  }

  // ---- files that begin with a section

  predicate IsBlank(line: string) {
    Trim(line, BLANKS) == ""
  }

  /** Before the first section header stand only comments and blank lines. */
  predicate OpensWithHeader(lines: seq<string>) {
    lines == [] || (if IsComment(lines[0]) || IsBlank(lines[0]) then OpensWithHeader(lines[1..]) else IsHeader(lines[0]))
  }

  predicate Headed(logical: seq<string>) {
    logical == [] || IsHeader(logical[0]) || (IsBlank(logical[0]) && Headed(logical[1..]))
  }

  lemma HeaderStandsAlone(line: string)
    requires IsHeader(line)
    ensures !Continues(line)
  {
    var t := Trim(line, BLANKS);
    if Upper(t) == "[UNIT]" || Upper(t) == "[SERVICE]" || Upper(t) == "[INSTALL]" {
      assert Upper(t)[|t| - 1] == ']';
    }
  }

  lemma {:induction false} OpensHeaded(lines: seq<string>)
    requires OpensWithHeader(lines)
    ensures Headed(Logical(lines, ""))
    decreases |lines|
  {
    if lines != [] {
      if IsComment(lines[0]) {
        OpensHeaded(lines[1..]);
      } else if IsBlank(lines[0]) {
        OpensHeaded(lines[1..]);
        var logical := Logical(lines, "");
        assert logical[0] == lines[0] && logical[1..] == Logical(lines[1..], "");
      } else {
        HeaderStandsAlone(lines[0]);
      }
    }
  }

  lemma BlankAssignsNothing(l: Load, unit: string, line: string, round: D.Rounding)
    requires IsBlank(line)
    ensures Interpret(l, unit, line, round) == l
  {
    hide ParseUnitLine, IsBlank, IsHeader;
    BlankName(line);
  }

  lemma BlankName(line: string)
    requires IsBlank(line)
    ensures ParseUnitLine(line).name == "" && !IsHeader(line)
  {
    BlankChars(line);
    NoSplit(line, '=');
  }

  lemma {:induction false} TrimRightKeeps(s: string, i: nat)
    requires i < |s| && s[i] !in BLANKS
    ensures TrimRight(s, BLANKS) != ""
    decreases |s|
  {
    if s[|s| - 1] in BLANKS {
      TrimRightKeeps(s[..|s| - 1], i);
    }
  }

  lemma {:induction false} BlankChars(s: string)
    requires Trim(s, BLANKS) == ""
    ensures forall i :: 0 <= i < |s| ==> s[i] in BLANKS
  {
    if s != "" {
      if s[0] in BLANKS {
        BlankChars(s[1..]);
      } else {
        TrimRightKeeps(s, 0);
      }
    }
  }

  lemma {:induction false} NoSplit(s: string, sep: char)
    requires sep !in s
    ensures Split(s, sep) == [s]
  {
    if s != "" {
      NoSplit(s[1..], sep);
      assert [s[0]] + s[1..] == s;
    }
  }

  /** A file that opens with a header does not care which section came before. */
  lemma {:induction false} SectionForgotten(unit: string, def: Definition, s1: Section, s2: Section,
                                            logical: seq<string>, round: D.Rounding)
    requires Headed(logical)
    ensures var l1 := InterpretAll(Load(s1, def, true), unit, logical, round);
            var l2 := InterpretAll(Load(s2, def, true), unit, logical, round);
            l1.def == l2.def && l1.ok == l2.ok
    decreases |logical|
  {
    if logical != [] && !IsHeader(logical[0]) {
      BlankAssignsNothing(Load(s1, def, true), unit, logical[0], round);
      BlankAssignsNothing(Load(s2, def, true), unit, logical[0], round);
      SectionForgotten(unit, def, s1, s2, logical[1..], round);
    }
  }

  /** A drop-in: loading first and then second into the same unit gives what loading both as one file gives. */
  lemma DropInComposes(unit: string, def: Definition, first: seq<string>, second: seq<string>, round: D.Rounding)
    requires Pending(first, "") == "" && OpensWithHeader(second)
    requires Loaded(unit, def, first, round).ok
    ensures var both := Loaded(unit, def, first + second, round);
            var apart := Loaded(unit, Loaded(unit, def, first, round).def, second, round);
            both.def == apart.def && both.ok == apart.ok
  {
    var l := Loaded(unit, def, first, round);
    LogicalConcat(first, second, "");
    InterpretConcat(Load(NoSection, def, true), unit, Logical(first, ""), Logical(second, ""), round);
    OpensHeaded(second);
    SectionForgotten(unit, l.def, l.section, NoSection, Logical(second, ""), round);
  }

  // ---- unknown sections

  lemma {:induction false} UnknownAssignsNothing(l: Load, unit: string, logical: seq<string>, round: D.Rounding)
    requires l.section.UnknownSection? && forall line :: line in logical ==> !IsHeader(line)
    ensures InterpretAll(l, unit, logical, round) == l
    decreases |logical|
  {
    if logical != [] {
      assert logical[0] in logical;
      UnknownAssignsNothing(l, unit, logical[1..], round);
    }
  }

  /** A whole unknown section, whatever it holds, may be put in front of a section header or at the end. */
  lemma UnknownSectionsChangeNothing(unit: string, def: Definition, before: seq<string>, header: string,
                                     body: seq<string>, rest: seq<string>, round: D.Rounding)
    requires Pending(before, "") == "" && Pending(body, "") == "" && OpensWithHeader(rest)
    requires !IsComment(header) && Header(header) == UnknownSection
    requires forall line :: line in Logical(body, "") ==> !IsHeader(line)
    ensures var long := Loaded(unit, def, before + ([header] + body) + rest, round);
            var short := Loaded(unit, def, before + rest, round);
            long.def == short.def && long.ok == short.ok
  {
    var start := Load(NoSection, def, true);
    var l := InterpretAll(start, unit, Logical(before, ""), round);
    UnknownLogical(header, body);
    LogicalConcat(before + ([header] + body), rest, "");
    LogicalConcat(before, [header] + body, "");
    LogicalConcat(before, rest, "");
    InterpretConcat(start, unit, Logical(before, "") + Logical([header] + body, ""), Logical(rest, ""), round);
    InterpretConcat(start, unit, Logical(before, ""), Logical([header] + body, ""), round);
    InterpretConcat(start, unit, Logical(before, ""), Logical(rest, ""), round);
    OpensHeaded(rest);
    InterpretFirst(l, unit, header, Logical(body, ""), round);
    if l.ok {
      UnknownAssignsNothing(l.(section := UnknownSection), unit, Logical(body, ""), round);
      SectionForgotten(unit, l.def, UnknownSection, l.section, Logical(rest, ""), round);
    } else {
      StopsThere(l, unit, Logical(body, ""), round);
    }
  }

  lemma UnknownLogical(header: string, body: seq<string>)
    requires !IsComment(header) && IsHeader(header)
    ensures Logical([header] + body, "") == [header] + Logical(body, "")
    ensures Pending([header] + body, "") == Pending(body, "")
  {
    HeaderStandsAlone(header);
    assert ([header] + body)[1..] == body;
  }

  // ---- what a relation holds

  /** Which relations each section may assign: all in the unit section, three in the install section. */
  predicate Relates(s: Section, relation: string) {
    || (s == UnitSection && relation in {
          "REQUIRES", "REQUIREDBY", "REQUISITE", "REQUISITEOF", "WANTS", "WANTEDBY", "BINDSTO", "BOUNDBY", "PARTOF",
          "CONSISTSOF", "UPHOLDS", "UPHELDBY", "CONFLICTS", "CONFLICTEDBY", "BEFORE", "AFTER", "ONFAILURE", "ONSUCCESS"})
    || (s == InstallSection && relation in {"REQUIREDBY", "WANTEDBY", "UPHELDBY"})
  }

  lemma RelatesAssigns(s: Section, relation: string)
    ensures Relates(s, relation) <==> AssignsRelation(s, relation)
  {
  }

  /** The values assigned to a relation by a stretch of logical lines that starts in section s. */
  function ValuesOf(relation: string, s: Section, logical: seq<string>): seq<string>
    decreases |logical|
  {
    if logical == [] then []
    else if IsHeader(logical[0]) then ValuesOf(relation, Header(logical[0]), logical[1..])
    else
      var a := ParseUnitLine(logical[0]);
      (if a.name == relation && Relates(s, relation) then [a.val] else []) +
      ValuesOf(relation, s, logical[1..])
  }

  /** x was given after the last empty assignment; what was there before counts if there is none. */
  ghost predicate GivenSinceReset(values: seq<string>, initial: set<string>, x: string) {
    || (x in initial && "" !in values)
    || exists i :: 0 <= i < |values| && values[i] != "" && x in NamesIn(values[i]) && "" !in values[i..]
  }

  lemma OtherDirectives(l: Load, unit: string, a: Assignment, round: D.Rounding)
    ensures AssignUnit(l, a).section == l.section && AssignUnit(l, a).def.relations == l.def.relations
    ensures AssignService(l, unit, a, round).section == l.section
    ensures AssignService(l, unit, a, round).def.relations == l.def.relations
  {
    hide Instance, Lower, D.Parsed;
  }

  lemma AssignRelation(l: Load, unit: string, a: Assignment, relation: string, round: D.Rounding)
    ensures Assign(l, unit, a, round).section == l.section
    ensures Assign(l, unit, a, round).def.Names(relation) ==
            if !(a.name == relation && AssignsRelation(l.section, relation)) then l.def.Names(relation)
            else if a.val == "" then {}
            else l.def.Names(relation) + NamesIn(a.val)
  {
    hide AssignUnit, AssignService, NamesIn;
    OtherDirectives(l, unit, a, round);
  }

  lemma GivenFirst(v: string, values: seq<string>, initial: set<string>, x: string)
    ensures GivenSinceReset([v] + values, initial, x) <==>
            GivenSinceReset(values, if v == "" then {} else initial + NamesIn(v), x)
  {
    hide Split;
    var all := [v] + values;
    var next := if v == "" then {} else initial + NamesIn(v);
    forall i | 0 <= i < |values|
      ensures all[i + 1] == values[i] && all[i + 1..] == values[i..]
    {
    }
    assert all[0..] == all && all[0] == v;
    if GivenSinceReset(all, initial, x) && !(x in initial && "" !in all) {
      var i :| 0 <= i < |all| && all[i] != "" && x in NamesIn(all[i]) && "" !in all[i..];
      if i > 0 {
        assert values[i - 1] == all[i] && all[i..] == values[i - 1..];
      }
    }
    if GivenSinceReset(values, next, x) && !(x in next && "" !in values) {
      var i :| 0 <= i < |values| && values[i] != "" && x in NamesIn(values[i]) && "" !in values[i..];
      assert all[i + 1] == values[i] && all[i + 1..] == values[i..];
    }
  }

  /** After a load without error each relation holds exactly the names given since its last empty assignment,
      in whichever sections may assign it. */
  lemma {:induction false} RelationsSinceReset(l: Load, unit: string, logical: seq<string>, relation: string,
                                               round: D.Rounding)
    requires InterpretAll(l, unit, logical, round).ok
    ensures forall x :: x in InterpretAll(l, unit, logical, round).def.Names(relation) <==>
              GivenSinceReset(ValuesOf(relation, l.section, logical), l.def.Names(relation), x)
    decreases |logical|
  {
    if logical != [] {
      var line, rest := logical[0], logical[1..];
      if !l.ok {
        StopsThere(l, unit, logical, round);
      }
      var next := Interpret(l, unit, line, round);
      RelationsSinceReset(next, unit, rest, relation, round);
      if !IsHeader(line) {
        var a := ParseUnitLine(line);
        AssignRelation(l, unit, a, relation, round);
        RelatesAssigns(l.section, relation);
        if a.name == relation && AssignsRelation(l.section, relation) {
          forall x
            ensures GivenSinceReset([a.val] + ValuesOf(relation, l.section, rest), l.def.Names(relation), x) <==>
                    GivenSinceReset(ValuesOf(relation, l.section, rest), next.def.Names(relation), x)
          {
            GivenFirst(a.val, ValuesOf(relation, l.section, rest), l.def.Names(relation), x);
          }
        } else {
          assert [] + ValuesOf(relation, l.section, rest) == ValuesOf(relation, l.section, rest);
        }
      }
    }
  }
}
