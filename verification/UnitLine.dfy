/** What single lines of a unit file mean, in plain strings: assignments, quotes, headers, comments, continuations
    and instance names. */
module UnitLine {
  import opened Strings
  import opened UnitFile

  /** What does not count at either end of a line or a directive's name. */
  const WHITE := {' ', '\t', '\r', '\n'}

  predicate Spaces(s: string) {
    forall i :: 0 <= i < |s| ==> s[i] == ' '
  }

  /** Text that neither begins nor ends with a character of the set. */
  predicate Tight(s: string, cutset: set<char>) {
    s != "" ==> s[0] !in cutset && s[|s| - 1] !in cutset
  }

  // ---- trimming

  lemma {:induction false} TrimLeftDrops(pre: string, s: string, cutset: set<char>)
    requires (forall i :: 0 <= i < |pre| ==> pre[i] in cutset) && (s != "" ==> s[0] !in cutset)
    ensures TrimLeft(pre + s, cutset) == s
  {
    if pre == "" {
      assert pre + s == s;
    } else {
      assert (pre + s)[1..] == pre[1..] + s;
      TrimLeftDrops(pre[1..], s, cutset);
    }
  }

  lemma {:induction false} TrimRightDrops(s: string, post: string, cutset: set<char>)
    requires (forall i :: 0 <= i < |post| ==> post[i] in cutset) && (s != "" ==> s[|s| - 1] !in cutset)
    ensures TrimRight(s + post, cutset) == s
    decreases |post|
  {
    if post == "" {
      assert s + post == s;
    } else {
      var n := |post| - 1;
      assert (s + post)[..|s + post| - 1] == s + post[..n];
      TrimRightDrops(s, post[..n], cutset);
    }
  }

  lemma TrimDrops(pre: string, s: string, post: string, cutset: set<char>)
    requires forall c :: c in pre || c in post ==> c in cutset
    requires Tight(s, cutset)
    ensures Trim(pre + s + post, cutset) == s
  {
    if s == "" {
      assert pre + s + post == (pre + post) + "";
      TrimLeftDrops(pre + post, "", cutset);
    } else {
      assert pre + s + post == pre + (s + post);
      TrimLeftDrops(pre, s + post, cutset);
      TrimRightDrops(s, post, cutset);
    }
  }

  // ---- assignments

  lemma {:induction false} SplitFirst(name: string, sep: char, val: string)
    requires sep !in name
    ensures Split(name + [sep] + val, sep) == [name] + Split(val, sep)
  {
    if name == "" {
      assert name + [sep] + val == [sep] + val;
      assert ([sep] + val)[1..] == val;
    } else {
      var s := name + [sep] + val;
      assert s[0] == name[0] && s[1..] == name[1..] + [sep] + val;
      SplitFirst(name[1..], sep, val);
      var rest := Split(s[1..], sep);
      assert rest[0] == name[1..] && rest[1..] == Split(val, sep);
      assert [name[0]] + name[1..] == name;
    }
  }

  /** The text after the first equals sign is the value, equals signs and all, before quotes and spaces are looked at. */
  lemma RightOfEquals(name: string, val: string)
    requires '=' !in name
    ensures var pieces := Split(name + "=" + val, '=');
            |pieces| > 1 && pieces[0] == name && Join(pieces[1..], '=') == val
  {
    SplitFirst(name, '=', val);
    JoinUndoesSplit(val, '=');
  }

  /** A value that is not quoted: leading spaces go, everything else stays, further equals signs, inner and trailing
      spaces and single quotation marks included. */
  lemma PlainValue(name: string, pre: string, core: string, post: string)
    requires '=' !in name && Spaces(pre) && Spaces(post) && core != "" && Tight(core, {' '})
    requires !(core[0] == '"' && core[|core| - 1] == '"') && !(core[0] == '\'' && core[|core| - 1] == '\'')
    ensures ParseUnitLine(name + "=" + (pre + core + post)) == Assignment(Upper(Trim(name, WHITE)), core + post)
  {
    assert WHITE == BLANKS;
    var val := pre + core + post;
    RightOfEquals(name, val);
    TrimDrops(pre, core, post, {' '});
    assert val == pre + (core + post);
    TrimLeftDrops(pre, core + post, {' '});
  }

  /** A value between double or between single quotes, with spaces around it: the text inside, if it neither begins
      nor ends with such a quote itself. */
  lemma QuotedValue(name: string, pre: string, quote: char, body: string, post: string)
    requires '=' !in name && Spaces(pre) && Spaces(post) && quote in {'"', '\''} && Tight(body, {quote})
    ensures ParseUnitLine(name + "=" + (pre + ([quote] + body + [quote]) + post)) ==
            Assignment(Upper(Trim(name, WHITE)), body)
  {
    assert WHITE == BLANKS;
    var core := [quote] + body + [quote];
    RightOfEquals(name, pre + core + post);
    TrimDrops(pre, core, post, {' '});
    TrimDrops([quote], body, [quote], {quote});
    assert HasPrefix(core, [quote]) && HasSuffix(core, [quote]);
    assert core[0] == quote;
  }

  /** Nothing but spaces after the equals sign, or no equals sign at all: the value is empty. */
  lemma EmptyValue(name: string, spaces: string)
    requires '=' !in name && Spaces(spaces)
    ensures ParseUnitLine(name + "=" + spaces) == Assignment(Upper(Trim(name, WHITE)), "")
    ensures ParseUnitLine(name) == Assignment(Upper(Trim(name, WHITE)), "")
  {
    assert WHITE == BLANKS;
    RightOfEquals(name, spaces);
    assert spaces == "" + "" + spaces && spaces == spaces + "";
    TrimDrops("", "", spaces, {' '});
    TrimLeftDrops(spaces, "", {' '});
    NoSplit(name, '=');
  }

  // ---- headers, comments and continuations

  /** Blanks around a header do not matter, nor does the case of its letters; what stands between other brackets is
      an unknown section. */
  lemma Headers(pre: string, title: string, post: string)
    requires (forall c :: c in pre || c in post ==> c in WHITE) && Tight(title, WHITE) && |title| >= 2
    ensures var line := pre + title + post;
            && (Upper(title) == "[UNIT]" ==> Header(line) == UnitSection)
            && (Upper(title) == "[SERVICE]" ==> Header(line) == ServiceSection)
            && (Upper(title) == "[INSTALL]" ==> Header(line) == InstallSection)
            && (title[0] == '[' && title[|title| - 1] == ']' && Upper(title) !in {"[UNIT]", "[SERVICE]", "[INSTALL]"} ==>
                  Header(line) == UnknownSection)
            && (title[0] != '[' || title[|title| - 1] != ']' ==> !IsHeader(line))
  {
    assert WHITE == BLANKS;
    TrimDrops(pre, title, post, WHITE);
    assert Upper(title)[0] == '[' <==> title[0] == '[';
    assert Upper(title)[|title| - 1] == ']' <==> title[|title| - 1] == ']';
    assert HasPrefix(title, "[") <==> title[0] == '[';
    assert HasSuffix(title, "]") <==> title[|title| - 1] == ']';
  }

  /** A line is a comment just if its first character that is no blank is a semicolon or a hash. */
  lemma Comments(pre: string, text: string)
    requires (forall c :: c in pre ==> c in WHITE) && (text != "" ==> text[0] !in WHITE)
    ensures IsComment(pre + text) <==> text != "" && text[0] in {';', '#'}
  {
    assert WHITE == BLANKS;
    TrimLeftDrops(pre, text, WHITE);
    TrimRightFront(text);
  }

  lemma {:induction false} TrimRightFront(s: string)
    requires s != "" ==> s[0] !in WHITE
    ensures s != "" ==> TrimRight(s, WHITE) != "" && TrimRight(s, WHITE)[0] == s[0]
    ensures s == "" ==> TrimRight(s, WHITE) == ""
    decreases |s|
  {
    if |s| > 1 && s[|s| - 1] in WHITE {
      TrimRightFront(s[..|s| - 1]);
    }
  }

  /** A line that ends in a backslash, blanks after it aside, and the line after it are one: the backslash and those
      blanks become one space. */
  lemma Continuation(a: string, blanks: string, b: string)
    requires forall c :: c in blanks ==> c in WHITE
    requires !IsComment(a + "\\" + blanks) && !IsComment(b)
    requires b == "" || (b[|b| - 1] !in WHITE && b[|b| - 1] != '\\')
    ensures Logical([a + "\\" + blanks, b], "") == [a + " " + b]
  {
    var line := a + "\\" + blanks;
    StemOf(a, blanks);
    ContinuesHere(a, blanks);
    StemKept(b);
    EndKept(b);
    Joined(line, b, a);
  }

  lemma Joined(line: string, b: string, a: string)
    requires !IsComment(line) && Continues(line) && Stem(line) == a && !IsComment(b) && !Continues(b) && Stem(b) == b
    ensures Logical([line, b], "") == [a + " " + b]
  {
    hide IsComment, Continues, Stem;
    assert [line, b][1..] == [b] && [b][1..] == [];
    assert "" + a + " " == a + " ";
    assert Logical([b], a + " ") == [a + " " + b] + Logical([], "");
  }

  lemma StemOf(a: string, blanks: string)
    requires forall c :: c in blanks ==> c in WHITE
    ensures Stem(a + "\\" + blanks) == a
  {
    assert WHITE == BLANKS;
    TrimRightDrops(a + "\\", blanks, WHITE);
  }

  lemma StemKept(b: string)
    requires b == "" || (b[|b| - 1] !in WHITE && b[|b| - 1] != '\\')
    ensures Stem(b) == b
  {
    assert WHITE == BLANKS;
    assert b + "" == b;
    TrimRightDrops(b, "", WHITE);
  }

  lemma {:induction false} ContinuesHere(a: string, blanks: string)
    requires forall c :: c in blanks ==> c in WHITE
    ensures Continues(a + "\\" + blanks)
    decreases |a|
  {
    assert WHITE == BLANKS;
    var s := a + "\\" + blanks;
    if a != "" && a[0] in WHITE {
      assert s[1..] == a[1..] + "\\" + blanks;
      ContinuesHere(a[1..], blanks);
    } else {
      TrimRightDrops(a + "\\", blanks, WHITE);
    }
  }

  /** Trimming keeps what a line without trailing blanks ends in. */
  lemma {:induction false} EndKept(b: string)
    requires b == "" || (b[|b| - 1] !in WHITE && b[|b| - 1] != '\\')
    ensures !Continues(b)
    decreases |b|
  {
    assert WHITE == BLANKS;
    if b != "" && b[0] in WHITE {
      assert b[1..] != "" ==> b[1..][|b| - 2] == b[|b| - 1];
      EndKept(b[1..]);
    }
  }

  // ---- instances

  /** In a unit called pre@inst, %i and %I in a command stand for inst; in one without an at sign for themselves. */
  lemma Instances(pre: string, inst: string, val: string)
    requires '@' !in pre && '@' !in inst
    ensures Instance(pre + "@" + inst, val) == ReplaceAll(ReplaceAll(val, "%i", inst), "%I", inst)
    ensures Instance(pre, val) == val
  {
    SplitFirst(pre, '@', inst);
    NoSplit(inst, '@');
    NoSplit(pre, '@');
  }

  // ---- lists of names

  lemma {:induction false} SplitUndoesJoin(names: seq<string>, sep: char)
    requires names != [] && forall n :: n in names ==> sep !in n
    ensures Split(Join(names, sep), sep) == names
    decreases |names|
  {
    if |names| == 1 {
      NoSplit(names[0], sep);
      assert names == [names[0]];
    } else {
      SplitUndoesJoin(names[1..], sep);
      assert Join(names, sep) == names[0] + [sep] + Join(names[1..], sep);
      SplitFirst(names[0], sep, Join(names[1..], sep));
      assert names == [names[0]] + names[1..];
    }
  }

  /** A relation's value lists its names with one space between them. */
  lemma NamesListed(names: seq<string>)
    requires names != [] && forall n :: n in names ==> ' ' !in n
    ensures NamesIn(Join(names, ' ')) == set n | n in names
    ensures NamesIn("a b") == {"a", "b"}
  {
    hide Split;
    SplitUndoesJoin(names, ' ');
    SplitUndoesJoin(["a", "b"], ' ');
    assert ["a", "b"][1..] == ["b"];
    assert Join(["a", "b"], ' ') == "a" + [' '] + "b" == "a b";
  }
}
