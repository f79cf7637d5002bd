/** The many spellings of time units, and the chain of substring replacements that is to bring each of them
    to its canonical form and leave everything else alone. */
module Spelling {

  import opened Strings

  function Two(s: string, a: string, b: string, sub: string): string
    requires a != "" && b != ""
  {
    ReplaceAll(ReplaceAll(s, a, sub), b, sub)
  }

  function Three(s: string, a: string, b: string, c: string, sub: string): string
    requires a != "" && b != "" && c != ""
  {
    ReplaceAll(Two(s, a, b, sub), c, sub)
  }

  function Micro(s: string): string {
    Two(s, "\U{3BC}s", "usec", "us")
  }
  function Milli(s: string): string {
    ReplaceAll(s, "msec", "ms")
  }
  function Second(s: string): string {
    Three(s, "seconds", "second", "sec", "s")
  }
  function Minute(s: string): string {
    Three(s, "minutes", "minute", "min", "m")
  }
  function Hour(s: string): string {
    Three(s, "hours", "hour", "hr", "h")
  }
  function Day(s: string): string {
    Two(s, "days", "day", "d")
  }
  function Week(s: string): string {
    Two(s, "weeks", "week", "w")
  }
  function Month(s: string): string {
    Two(s, "months", "month", "M")
  }
  function Year(s: string): string {
    Two(s, "years", "year", "y")
  }

  /** The chain of passes, after the spaces have gone. */
  function Chain(s: string): string {
    Year(Month(Week(Day(Hour(Minute(Second(Milli(Micro(s)))))))))
  }

  function Normalised(s: string): string {
    Chain(ReplaceAll(s, " ", ""))
  }

  datatype Replace = Replace(unit: string, spelled: seq<string>)

  /** The table the passes follow, in its order. */
  const TABLE := [
    Replace("us", ["\U{3BC}s", "usec"]),
    Replace("ms", ["msec"]),
    Replace("s", ["seconds", "second", "sec"]),
    Replace("m", ["minutes", "minute", "min"]),
    Replace("h", ["hours", "hour", "hr"]),
    Replace("d", ["days", "day"]),
    Replace("w", ["weeks", "week"]),
    Replace("M", ["months", "month"]),
    Replace("y", ["years", "year"])]

  ghost function Row(s: string, r: Replace, k: nat): string
    requires k <= |r.spelled| && "" !in r.spelled
    decreases |r.spelled| - k
  {
    if k == |r.spelled| then s else Row(ReplaceAll(s, r.spelled[k], r.unit), r, k + 1)
  }

  lemma NoEmptyWord(i: nat)
    requires i < |TABLE|
    ensures "" !in TABLE[i].spelled
  {
  }

  ghost function Rows(s: string, i: nat): string
    requires i <= |TABLE|
    decreases |TABLE| - i
  {
    if i == |TABLE| then s else Rows(Row(s, TABLE[i], 0), i + 1)
  }

  lemma RowOfThree(s: string, r: Replace)
    requires |r.spelled| == 3 && "" !in r.spelled
    ensures Row(s, r, 0) ==
            Three(s, r.spelled[0], r.spelled[1], r.spelled[2], r.unit)
  {
    var s1 := ReplaceAll(s, r.spelled[0], r.unit);
    var s2 := ReplaceAll(s1, r.spelled[1], r.unit);
    assert Row(s, r, 0) == Row(s1, r, 1);
    assert Row(s1, r, 1) == Row(s2, r, 2);
    assert Row(s2, r, 2) == Row(ReplaceAll(s2, r.spelled[2], r.unit), r, 3);
  }

  lemma RowOfTwo(s: string, r: Replace)
    requires |r.spelled| == 2 && "" !in r.spelled
    ensures Row(s, r, 0) == Two(s, r.spelled[0], r.spelled[1], r.unit)
  {
    var s1 := ReplaceAll(s, r.spelled[0], r.unit);
    assert Row(s, r, 0) == Row(s1, r, 1);
    assert Row(s1, r, 1) == Row(ReplaceAll(s1, r.spelled[1], r.unit), r, 2);
  }

  lemma FirstRows(s: string)
    ensures Rows(s, 0) == Rows(Minute(Second(Milli(Micro(s)))), 4)
  {
    RowOfTwo(s, TABLE[0]);
    var s1 := Micro(s);
    assert Rows(s, 0) == Rows(s1, 1);
    assert Rows(s1, 1) == Rows(Milli(s1), 2);
    RowOfThree(Milli(s1), TABLE[2]);
    var s3 := Second(Milli(s1));
    assert Rows(Milli(s1), 2) == Rows(s3, 3);
    RowOfThree(s3, TABLE[3]);
  }

  lemma LastRows(s: string)
    ensures Rows(s, 4) == Year(Month(Week(Day(Hour(s)))))
  {
    RowOfThree(s, TABLE[4]);
    var s1 := Hour(s);
    assert Rows(s, 4) == Rows(s1, 5);
    RowOfTwo(s1, TABLE[5]);
    var s2 := Day(s1);
    assert Rows(s1, 5) == Rows(s2, 6);
    RowOfTwo(s2, TABLE[6]);
    var s3 := Week(s2);
    assert Rows(s2, 6) == Rows(s3, 7);
    RowOfTwo(s3, TABLE[7]);
    var s4 := Month(s3);
    assert Rows(s3, 7) == Rows(s4, 8);
    RowOfTwo(s4, TABLE[8]);
  }

  /** The loops over the table. */
  method Normalise(text: string) returns (s: string)
    ensures s == Normalised(text)
  {
    s := ReplaceAll(text, " ", "");
    ghost var start := s;
    for i := 0 to |TABLE|
      invariant Rows(s, i) == Rows(start, 0)
    {
      var r := TABLE[i];
      NoEmptyWord(i);
      for k := 0 to |r.spelled|
        invariant Rows(Row(s, r, k), i + 1) == Rows(start, 0)
      {
        s := ReplaceAll(s, r.spelled[k], r.unit);
      }
    }
    FirstRows(start);
    LastRows(Minute(Second(Milli(Micro(start)))));
  }

  // ---- which word means which unit

  const CANONICAL := {"ns", "us", "\U{B5}s", "ms", "s", "m", "h", "d", "w", "M", "y"}

  predicate IsWord(w: string) {
    || w in CANONICAL
    || w in {"\U{3BC}s", "usec", "msec", "seconds", "second", "sec", "minutes", "minute", "min"}
    || w in {"hours", "hour", "hr", "days", "day", "weeks", "week", "months", "month", "years", "year"}
  }

  /** The unit a word stands for. */
  function UnitOfWord(w: string): string {
    if w in {"\U{3BC}s", "usec"} then "us"
    else if w == "msec" then "ms"
    else if w in {"seconds", "second", "sec"} then "s"
    else if w in {"minutes", "minute", "min"} then "m"
    else if w in {"hours", "hour", "hr"} then "h"
    else if w in {"days", "day"} then "d"
    else if w in {"weeks", "week"} then "w"
    else if w in {"months", "month"} then "M"
    else if w in {"years", "year"} then "y"
    else w
  }

  // ---- a pass leaves alone what lacks one of its letters

  lemma {:induction false} Untouched(s: string, pat: string, sub: string, c: char)
    requires pat != "" && c in pat && c !in s
    ensures ReplaceAll(s, pat, sub) == s
    decreases |s|
  {
    if |s| >= |pat| {
      var k :| 0 <= k < |pat| && pat[k] == c;
      assert s[k] != c;
      assert s[..|pat|][k] == s[k];
      Untouched(s[1..], pat, sub, c);
    }
  }

  lemma TooShort(s: string, pat: string, sub: string)
    requires |s| < |pat|
    ensures ReplaceAll(s, pat, sub) == s
  {
  }

  lemma Whole(pat: string, sub: string)
    requires pat != ""
    ensures ReplaceAll(pat, pat, sub) == sub
  {
    assert pat[..|pat|] == pat && pat[|pat|..] == "";
    assert sub + "" == sub;
  }

  // ---- one pass on one word

  lemma MicroWord(w: string)
    requires IsWord(w)
    ensures Micro(w) == if w in {"\U{3BC}s", "usec"} then "us" else w
  {
    if w == "\U{3BC}s" {
      Whole("\U{3BC}s", "us");
      TooShort("us", "usec", "us");
    } else {
      Untouched(w, "\U{3BC}s", "us", '\U{3BC}');
      UsecWord(w);
    }
  }

  lemma UsecWord(w: string)
    requires IsWord(w)
    ensures ReplaceAll(w, "usec", "us") == if w == "usec" then "us" else w
  {
    if w == "usec" {
      Whole("usec", "us");
    } else {
      Untouched(w, "usec", "us", if 'c' !in w then 'c' else 'u');
    }
  }

  lemma MilliWord(w: string)
    requires IsWord(w) && w != "usec"
    ensures Milli(w) == if w == "msec" then "ms" else w
  {
    if w == "msec" {
      Whole("msec", "ms");
    } else if 'c' !in w {
      Untouched(w, "msec", "ms", 'c');
    } else {
      Untouched(w, "msec", "ms", 'm');
    }
  }

  /** Three passes for the plural, the singular and the abbreviation of one unit. */
  lemma ThreePasses(w: string, plural: string, single: string, abbr: string, unit: string, c: char)
    requires |plural| > |single| > |abbr| >= 2 && |unit| == 1 && c in plural && c in single && c in abbr
    requires c !in w || w in {plural, single, abbr}
    ensures Three(w, plural, single, abbr, unit) == if w in {plural, single, abbr} then unit else w
  {
    if c !in w {
      Untouched(w, plural, unit, c);
      Untouched(w, single, unit, c);
      Untouched(w, abbr, unit, c);
    } else {
      Whole(w, unit);
      assert ReplaceAll(unit, single, unit) == unit && ReplaceAll(unit, abbr, unit) == unit;
    }
  }

  lemma TwoPasses(w: string, plural: string, single: string, unit: string, c: char)
    requires |plural| > |single| >= 2 && |unit| == 1 && c in plural && c in single
    requires c !in w || w in {plural, single}
    ensures Two(w, plural, single, unit) == if w in {plural, single} then unit else w
  {
    if c !in w {
      Untouched(w, plural, unit, c);
      Untouched(w, single, unit, c);
    } else {
      Whole(w, unit);
    }
  }

  lemma SecondWord(w: string)
    requires IsWord(w) && w !in {"usec", "msec"}
    ensures Second(w) == if w in {"seconds", "second", "sec"} then "s" else w
  {
    ThreePasses(w, "seconds", "second", "sec", "s", 'c');
  }

  lemma MinuteWord(w: string)
    requires IsWord(w)
    ensures Minute(w) == if w in {"minutes", "minute", "min"} then "m" else w
  {
    ThreePasses(w, "minutes", "minute", "min", "m", 'i');
  }

  lemma HourWord(w: string)
    requires IsWord(w)
    ensures Hour(w) == if w in {"hours", "hour", "hr"} then "h" else w
  {
    ThreePasses(w, "hours", "hour", "hr", "h", if 'h' !in w then 'h' else 'r');
  }

  lemma DayWord(w: string)
    requires IsWord(w) && w !in {"seconds", "second"}
    ensures Day(w) == if w in {"days", "day"} then "d" else w
  {
    TwoPasses(w, "days", "day", "d", if 'd' !in w then 'd' else 'a');
  }

  lemma WeekWord(w: string)
    requires IsWord(w)
    ensures Week(w) == if w in {"weeks", "week"} then "w" else w
  {
    TwoPasses(w, "weeks", "week", "w", 'k');
  }

  lemma MonthWord(w: string)
    requires IsWord(w) && w !in {"minutes", "minute"}
    ensures Month(w) == if w in {"months", "month"} then "M" else w
  {
    TwoPasses(w, "months", "month", "M", 't');
  }

  lemma YearWord(w: string)
    requires IsWord(w) && w !in {"hours", "hour", "hr"}
    ensures Year(w) == if w in {"years", "year"} then "y" else w
  {
    TwoPasses(w, "years", "year", "y", 'r');
  }

  /** Each word comes out as its unit: no later pass spoils what an earlier one has made. */
  lemma ChainWord(w: string)
    requires IsWord(w)
    ensures Chain(w) == UnitOfWord(w)
  {
    MicroWord(w);
    var w1 := Micro(w);
    MilliWord(w1);
    var w2 := Milli(w1);
    SecondWord(w2);
    var w3 := Second(w2);
    MinuteWord(w3);
    var w4 := Minute(w3);
    HourWord(w4);
    var w5 := Hour(w4);
    DayWord(w5);
    var w6 := Day(w5);
    WeekWord(w6);
    var w7 := Week(w6);
    MonthWord(w7);
    YearWord(Month(w7));
  }

  // ---- whole time spans

  /** Digits, the decimal point and the sign: what stands between two words. */
  const BARRIERS := "0123456789.+-"

  predicate IsNumber(n: string) {
    n != "" && forall c :: c in n ==> c in BARRIERS
  }

  datatype Part = Part(number: string, word: string)

  function Text(parts: seq<Part>): string {
    if parts == [] then "" else parts[0].number + (parts[0].word + Text(parts[1..]))
  }

  predicate Spelled(parts: seq<Part>) {
    forall i :: 0 <= i < |parts| ==> IsNumber(parts[i].number) && IsWord(parts[i].word)
  }

  function InUnits(parts: seq<Part>): (r: seq<Part>)
    ensures |r| == |parts|
    ensures forall i :: 0 <= i < |parts| ==> r[i] == Part(parts[i].number, UnitOfWord(parts[i].word))
  {
    seq(|parts|, i requires 0 <= i < |parts| => Part(parts[i].number, UnitOfWord(parts[i].word)))
  }

  /** No occurrence of pat reaches across a character that pat does not have. */
  lemma {:induction false} SplitChar(x: string, c: char, y: string, pat: string, sub: string)
    requires pat != "" && c !in pat
    ensures ReplaceAll(x + [c] + y, pat, sub) == ReplaceAll(x, pat, sub) + [c] + ReplaceAll(y, pat, sub)
    decreases |x|
  {
    var s := x + [c] + y;
    if |s| < |pat| {
    } else if |x| >= |pat| && x[..|pat|] == pat {
      assert s[..|pat|] == pat;
      assert s[|pat|..] == x[|pat|..] + [c] + y;
      SplitChar(x[|pat|..], c, y, pat, sub);
      var a, b := ReplaceAll(x[|pat|..], pat, sub), ReplaceAll(y, pat, sub);
      assert sub + (a + [c] + b) == (sub + a) + [c] + b;
    } else {
      assert s[..|pat|] != pat by {
        if |x| < |pat| {
          assert s[..|pat|][|x|] == c;
        } else {
          assert s[..|pat|] == x[..|pat|];
        }
      }
      if x == "" {
        assert s[1..] == y;
      } else {
        assert s[1..] == x[1..] + [c] + y;
        SplitChar(x[1..], c, y, pat, sub);
        var a, b := ReplaceAll(x[1..], pat, sub), ReplaceAll(y, pat, sub);
        assert ReplaceAll(x, pat, sub) == [x[0]] + a;
        assert [x[0]] + (a + [c] + b) == ([x[0]] + a) + [c] + b;
      }
    }
  }

  lemma Peel(x: string, n: string, y: string)
    requires n != ""
    ensures x + n + y == x + [n[0]] + (n[1..] + y)
  {
    assert n == [n[0]] + n[1..];
  }

  /** A pass leaves in front what has no character of the pattern. */
  lemma {:induction false} KeepsFront(n: string, y: string, pat: string, sub: string)
    requires pat != "" && forall c :: c in n ==> c !in pat
    ensures ReplaceAll(n + y, pat, sub) == n + ReplaceAll(y, pat, sub)
    decreases |n|
  {
    if n == "" {
      assert n + y == y && n + ReplaceAll(y, pat, sub) == ReplaceAll(y, pat, sub);
    } else {
      Peel("", n, y);
      Peel("", n, ReplaceAll(y, pat, sub));
      assert "" + n == n;
      SplitChar("", n[0], n[1..] + y, pat, sub);
      KeepsFront(n[1..], y, pat, sub);
    }
  }

  /** A pass works on both sides of a number separately. */
  lemma Splits(x: string, n: string, y: string, pat: string, sub: string)
    requires pat != "" && n != "" && forall c :: c in n ==> c !in pat
    ensures ReplaceAll(x + n + y, pat, sub) == ReplaceAll(x, pat, sub) + n + ReplaceAll(y, pat, sub)
  {
    hide ReplaceAll;
    Peel(x, n, y);
    Peel(ReplaceAll(x, pat, sub), n, ReplaceAll(y, pat, sub));
    SplitChar(x, n[0], n[1..] + y, pat, sub);
    KeepsFront(n[1..], y, pat, sub);
  }

  lemma TwoSplit(x: string, n: string, y: string, a: string, b: string, sub: string)
    requires a != "" && b != "" && n != "" && forall k :: k in n ==> k !in a && k !in b
    ensures Two(x + n + y, a, b, sub) == Two(x, a, b, sub) + n + Two(y, a, b, sub)
  {
    Splits(x, n, y, a, sub);
    Splits(ReplaceAll(x, a, sub), n, ReplaceAll(y, a, sub), b, sub);
  }

  lemma ThreeSplit(x: string, n: string, y: string, a: string, b: string, c: string, sub: string)
    requires a != "" && b != "" && c != "" && n != "" && forall k :: k in n ==> k !in a && k !in b && k !in c
    ensures Three(x + n + y, a, b, c, sub) == Three(x, a, b, c, sub) + n + Three(y, a, b, c, sub)
  {
    TwoSplit(x, n, y, a, b, sub);
    Splits(Two(x, a, b, sub), n, Two(y, a, b, sub), c, sub);
  }

  lemma MicroSplits(x: string, n: string, y: string)
    requires IsNumber(n)
    ensures Micro(x + n + y) == Micro(x) + n + Micro(y)
  {
    TwoSplit(x, n, y, "\U{3BC}s", "usec", "us");
  }

  lemma MilliSplits(x: string, n: string, y: string)
    requires IsNumber(n)
    ensures Milli(x + n + y) == Milli(x) + n + Milli(y)
  {
    Splits(x, n, y, "msec", "ms");
  }

  lemma SecondSplits(x: string, n: string, y: string)
    requires IsNumber(n)
    ensures Second(x + n + y) == Second(x) + n + Second(y)
  {
    ThreeSplit(x, n, y, "seconds", "second", "sec", "s");
  }

  lemma MinuteSplits(x: string, n: string, y: string)
    requires IsNumber(n)
    ensures Minute(x + n + y) == Minute(x) + n + Minute(y)
  {
    ThreeSplit(x, n, y, "minutes", "minute", "min", "m");
  }

  lemma HourSplits(x: string, n: string, y: string)
    requires IsNumber(n)
    ensures Hour(x + n + y) == Hour(x) + n + Hour(y)
  {
    ThreeSplit(x, n, y, "hours", "hour", "hr", "h");
  }

  lemma DaySplits(x: string, n: string, y: string)
    requires IsNumber(n)
    ensures Day(x + n + y) == Day(x) + n + Day(y)
  {
    TwoSplit(x, n, y, "days", "day", "d");
  }

  lemma WeekSplits(x: string, n: string, y: string)
    requires IsNumber(n)
    ensures Week(x + n + y) == Week(x) + n + Week(y)
  {
    TwoSplit(x, n, y, "weeks", "week", "w");
  }

  lemma MonthSplits(x: string, n: string, y: string)
    requires IsNumber(n)
    ensures Month(x + n + y) == Month(x) + n + Month(y)
  {
    TwoSplit(x, n, y, "months", "month", "M");
  }

  lemma YearSplits(x: string, n: string, y: string)
    requires IsNumber(n)
    ensures Year(x + n + y) == Year(x) + n + Year(y)
  {
    TwoSplit(x, n, y, "years", "year", "y");
  }

  lemma ChainSplits(x: string, n: string, y: string)
    requires IsNumber(n)
    ensures Chain(x + n + y) == Chain(x) + n + Chain(y)
  {
    MicroSplits(x, n, y);
    var x1, y1 := Micro(x), Micro(y);
    MilliSplits(x1, n, y1);
    var x2, y2 := Milli(x1), Milli(y1);
    SecondSplits(x2, n, y2);
    var x3, y3 := Second(x2), Second(y2);
    MinuteSplits(x3, n, y3);
    var x4, y4 := Minute(x3), Minute(y3);
    HourSplits(x4, n, y4);
    var x5, y5 := Hour(x4), Hour(y4);
    DaySplits(x5, n, y5);
    var x6, y6 := Day(x5), Day(y5);
    WeekSplits(x6, n, y6);
    var x7, y7 := Week(x6), Week(y6);
    MonthSplits(x7, n, y7);
    YearSplits(Month(x7), n, Month(y7));
  }

  lemma ChainEmpty()
    ensures Chain("") == ""
  {
  }

  lemma FromEmpty(n: string, y: string)
    ensures "" + n + y == n + y
  {
    assert "" + n == n;
  }

  /** The chain works on a number and on what follows it separately. */
  lemma ChainLeads(n: string, y: string)
    requires IsNumber(n)
    ensures Chain(n + y) == n + Chain(y)
  {
    hide Chain;
    ChainEmpty();
    ChainSplits("", n, y);
    FromEmpty(n, y);
    FromEmpty(n, Chain(y));
  }

  lemma Associates(a: string, b: string, c: string)
    ensures a + (b + c) == a + b + c && a + "" == a
  {
  }

  lemma ChainFollows(w: string, parts: seq<Part>)
    requires Spelled(parts)
    ensures Chain(w + Text(parts)) == Chain(w) + Chain(Text(parts))
  {
    if parts == [] {
      ChainEmpty();
      Associates(w, "", "");
      Associates(Chain(w), "", "");
    } else {
      var n, y := parts[0].number, parts[0].word + Text(parts[1..]);
      ChainSplits(w, n, y);
      ChainLeads(n, y);
      Associates(w, n, y);
      Associates(Chain(w), n, Chain(y));
    }
  }

  lemma {:induction false} ChainText(parts: seq<Part>)
    requires Spelled(parts)
    ensures Chain(Text(parts)) == Text(InUnits(parts))
  {
    if parts == [] {
      ChainEmpty();
    } else {
      var w, rest := parts[0].word, parts[1..];
      ChainText(rest);
      ChainWord(w);
      ChainFollows(w, rest);
      ChainLeads(parts[0].number, w + Text(rest));
      assert InUnits(parts)[1..] == InUnits(rest);
    }
  }

  function WithoutSpaces(s: string): string {
    if s == "" then "" else (if s[0] == ' ' then "" else [s[0]]) + WithoutSpaces(s[1..])
  }

  lemma {:induction false} SpacesGo(s: string)
    ensures ReplaceAll(s, " ", "") == WithoutSpaces(s)
  {
    if s != "" {
      assert s[..1] == [s[0]];
      SpacesGo(s[1..]);
    }
  }

  /** On every sequence of numbers and spelled-out units, with spaces anywhere: each word becomes its unit
      and nothing else changes. */
  lemma NormalisedText(s: string, parts: seq<Part>)
    requires WithoutSpaces(s) == Text(parts) && Spelled(parts)
    ensures Normalised(s) == Text(InUnits(parts))
  {
    SpacesGo(s);
    ChainText(parts);
  }
}
