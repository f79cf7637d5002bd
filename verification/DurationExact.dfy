/** The 64-bit parser against plain arithmetic: for which time spans it returns the sum of its parts. */
module DurationExact {
  import S = Spelling
  import opened Duration
  import opened Options

  /** One part of a span: digits, perhaps a point and more digits, and a unit. */
  datatype Part = Part(whole: string, point: bool, fraction: string, unit: string)
  {
    predicate Valid() {
      && AllDigits(whole) && AllDigits(fraction) && (!point ==> fraction == "")
      && (whole != "" || fraction != "") && UnitOf(unit) > 0
    }
    function Number(): string {
      whole + (if point then "." + fraction else "")
    }
    function Text(): string {
      Number() + unit
    }
    /** Its length in nanoseconds; a fraction counts as the oracle rounds it. */
    function Term(round: Rounding): nat
      requires Valid()
    {
      var f := Value(fraction[..FitLength(fraction)]);
      Value(whole) * UnitOf(unit) + if f > 0 then round(f, Pow10(FitLength(fraction)), UnitOf(unit)) else 0
    }
  }

  ghost predicate AllValid(parts: seq<Part>) {
    forall p :: p in parts ==> p.Valid()
  }

  function Text(parts: seq<Part>): string {
    if parts == [] then "" else parts[0].Text() + Text(parts[1..])
  }

  ghost function Terms(parts: seq<Part>, round: Rounding): (t: seq<nat>)
    requires AllValid(parts)
    ensures |t| == |parts|
  {
    if parts == [] then [] else [parts[0].Term(round)] + Terms(parts[1..], round)
  }

  function Sum(terms: seq<nat>): nat {
    if terms == [] then 0 else terms[0] + Sum(terms[1..])
  }

  // ---- reading one part

  lemma UnitHasNoDigit(u: string)
    requires UnitOf(u) > 0
    ensures u != "" && forall i :: 0 <= i < |u| ==> !(u[i] == '.' || IsDigit(u[i]))
  {
  }

  lemma {:induction false} DigitsStop(w: string, rest: string)
    requires AllDigits(w) && (rest != "" ==> !IsDigit(rest[0]))
    ensures Digits(w + rest) == |w| && (w + rest)[..|w|] == w && (w + rest)[|w|..] == rest
    decreases |w|
  {
    if w == "" {
      assert w + rest == rest;
    } else {
      assert (w + rest)[1..] == w[1..] + rest;
      DigitsStop(w[1..], rest);
    }
  }

  lemma {:induction false} UnitStops(u: string, rest: string)
    requires forall i :: 0 <= i < |u| ==> !(u[i] == '.' || IsDigit(u[i]))
    requires rest != "" ==> rest[0] == '.' || IsDigit(rest[0])
    ensures UnitLength(u + rest) == |u| && (u + rest)[..|u|] == u && (u + rest)[|u|..] == rest
    decreases |u|
  {
    if u == "" {
      assert u + rest == rest;
    } else {
      assert (u + rest)[1..] == u[1..] + rest;
      UnitStops(u[1..], rest);
    }
  }

  lemma FitSame(f: string, rest: string)
    requires AllDigits(f) && (rest != "" ==> !IsDigit(rest[0]))
    ensures FitLength(f + rest) == FitLength(f) && FitLength(f) <= |f|
    ensures (f + rest)[..FitLength(f)] == f[..FitLength(f)]
  {
    DigitsStop(f, rest);
    DigitsStop(f, "");
    assert f + "" == f;
    FitUpToSame(f, rest, |f|);
  }

  lemma {:induction false} FitUpToSame(f: string, rest: string, n: nat)
    requires n <= |f| && Digits(f) == Digits(f + rest) == |f|
    ensures FitUpTo(f + rest, n) == FitUpTo(f, n)
  {
    DigitsBelow(f, n);
    assert (f + rest)[..n] == f[..n];
    if Value(f[..n]) > TOP {
      FitUpToSame(f, rest, n - 1);
    }
  }

  lemma WithPoint(s: string, s2: string)
    requires s[Digits(s)..] == "." + s2
    ensures NumberOf(s) == Number(Lead(s), Value(s2[..FitLength(s2)]), Pow10(FitLength(s2)), s2[Digits(s2)..],
                                  Digits(s) > 0 || Digits(s2) > 0)
  {
    hide Value, Pow10, FitUpTo;
    assert ("." + s2)[1..] == s2;
  }

  lemma WithoutPoint(s: string)
    requires s[Digits(s)..] != "" ==> s[Digits(s)] != '.'
    ensures NumberOf(s) == Number(Lead(s), 0, 1, s[Digits(s)..], Digits(s) > 0)
  {
    hide Value, Pow10, FitUpTo;
  }

  lemma NumberAtHead(p: Part, rest: string)
    requires p.Valid() && rest != "" && rest[0] != '.' && !IsDigit(rest[0])
    ensures var n := NumberOf(p.Number() + rest);
            && Lead(p.Number() + rest) == n.v == Value(p.whole) && n.rem == rest && n.digits
            && n.f == Value(p.fraction[..FitLength(p.fraction)])
            && (n.f > 0 ==> n.scale == Pow10(FitLength(p.fraction)))
  {
    hide NumberOf, Value, Pow10, FitUpTo, Digits;
    var s := p.Number() + rest;
    if p.point {
      var tail := "." + (p.fraction + rest);
      assert s == p.whole + tail;
      DigitsStop(p.whole, tail);
      WithPoint(s, p.fraction + rest);
      DigitsStop(p.fraction, rest);
      FitSame(p.fraction, rest);
    } else {
      assert s == p.whole + rest;
      DigitsStop(p.whole, rest);
      WithoutPoint(s);
      NothingFits();
    }
  }

  lemma NothingFits()
    ensures Value(""[..FitLength("")]) == 0
  {
  }

  /** The overflow check before the multiplication is exact. */
  lemma DivisionBound(v: nat, unit: nat)
    requires unit > 0
    ensures v <= TOP / unit <==> v * unit <= TOP
  {
    var q := TOP / unit;
    assert q * unit <= TOP < (q + 1) * unit;
    if v <= q {
      assert v * unit <= q * unit;
    } else {
      assert v * unit >= (q + 1) * unit;
    }
  }

  /** A part is refused exactly when it alone exceeds 2^63; no register wraps on the way. */
  lemma SumFits(product: nat, more: nat)
    requires product <= TOP && more < TOP
    ensures Uint64(product) == product && Uint64(product + more) == product + more
  {
  }

  /** The amount is the plain term, if that is in range: no product or sum wraps. */
  lemma AmountInRange(n: Number, unit: nat, round: Rounding, term: nat)
    requires 0 < unit < TOP && term == n.v * unit + if n.f > 0 then round(n.f, n.scale, unit) else 0
    requires n.f > 0 ==> round(n.f, n.scale, unit) <= unit
    ensures Amount(n, unit, round) == if term <= TOP then Some(term) else None
  {
    hide Uint64;
    DivisionBound(n.v, unit);
    if n.v <= TOP / unit {
      SumFits(n.v * unit, if n.f > 0 then round(n.f, n.scale, unit) else 0);
    }
  }

  lemma AmountIsTerm(p: Part, n: Number, round: Rounding)
    requires p.Valid() && Sound(round) && n.v == Value(p.whole) && n.f == Value(p.fraction[..FitLength(p.fraction)])
    requires n.f > 0 ==> n.scale == Pow10(FitLength(p.fraction))
    ensures Amount(n, UnitOf(p.unit), round) == if p.Term(round) <= TOP then Some(p.Term(round)) else None
  {
    assert UnitOf(p.unit) > 0;
    hide Amount, Value, FitLength, UnitOf, Pow10;
    AmountInRange(n, UnitOf(p.unit), round, p.Term(round));
  }

  lemma LeadBound(v: nat, unit: nat)
    requires unit > 0 && v > TOP
    ensures v * unit > TOP
  {
  }

  /** The check of one turn: the part itself and the sum it makes. */
  predicate Over(d: nat, term: nat) {
    term > TOP || Uint64(d + term) > TOP
  }

  /** One turn of the loop takes one part. */
  lemma TurnTakesPart(p: Part, rest: string, d: nat, round: Rounding)
    requires p.Valid() && Sound(round) && (rest != "" ==> rest[0] == '.' || IsDigit(rest[0]))
    ensures p.Text() + rest != ""
    ensures Turn(p.Text() + rest, d, round) ==
            if Over(d, p.Term(round)) then None
            else Some(Rest(rest, Uint64(d + p.Term(round))))
  {
    hide NumberOf, Amount, Lead;
    var s := p.Text() + rest;
    PartAtHead(p, rest);
    AmountIsTerm(p, NumberOf(s), round);
    if Value(p.whole) > TOP {
      LeadBound(Value(p.whole), UnitOf(p.unit));
    }
  }

  lemma PartAtHead(p: Part, rest: string)
    requires p.Valid() && (rest != "" ==> rest[0] == '.' || IsDigit(rest[0]))
    ensures var s := p.Text() + rest;
            var n := NumberOf(s);
            && s != "" && (s[0] == '.' || IsDigit(s[0])) && Lead(s) == n.v == Value(p.whole) && n.digits
            && n.f == Value(p.fraction[..FitLength(p.fraction)])
            && (n.f > 0 ==> n.scale == Pow10(FitLength(p.fraction)))
            && UnitLength(n.rem) == |p.unit| > 0 && n.rem[..|p.unit|] == p.unit && n.rem[|p.unit|..] == rest
  {
    var s := p.Text() + rest;
    UnitHasNoDigit(p.unit);
    assert s == p.Number() + (p.unit + rest);
    assert s[0] == p.Number()[0];
    NumberAtHead(p, p.unit + rest);
    UnitStops(p.unit, rest);
  }

  // ---- the sum register

  /** The register d after the terms, if no check stops it. */
  function Register(d: nat, terms: seq<nat>): Option<nat>
    decreases |terms|
  {
    if terms == [] then Some(d)
    else if Over(d, terms[0]) then None
    else Register(Uint64(d + terms[0]), terms[1..])
  }

  lemma OneMore(p: Part, rest: string, d: nat, round: Rounding)
    requires p.Valid() && Sound(round) && (rest != "" ==> rest[0] == '.' || IsDigit(rest[0]))
    ensures ParseParts(p.Text() + rest, d, round) ==
            if Over(d, p.Term(round)) then None else ParseParts(rest, Uint64(d + p.Term(round)), round)
  {
    TurnTakesPart(p, rest, d, round);
  }

  lemma {:induction false} PartsAreRegister(parts: seq<Part>, d: nat, round: Rounding)
    requires AllValid(parts) && Sound(round)
    ensures ParseParts(Text(parts), d, round) == Register(d, Terms(parts, round))
    decreases |parts|
  {
    hide Turn, Value, UnitOf, Part.Term, Part.Text;
    if parts != [] {
      var p, rest := parts[0], parts[1..];
      StartsWithNumber(rest);
      OneMore(p, Text(rest), d, round);
      TermsUnfold(parts, round);
      if !Over(d, p.Term(round)) {
        PartsAreRegister(rest, Uint64(d + p.Term(round)), round);
      }
    }
  }

  lemma TermsUnfold(parts: seq<Part>, round: Rounding)
    requires parts != [] && AllValid(parts)
    ensures AllValid(parts[1..]) && parts[0].Valid()
    ensures Terms(parts, round)[0] == parts[0].Term(round) && Terms(parts, round)[1..] == Terms(parts[1..], round)
  {
    assert parts[0] in parts;
  }

  lemma StartsWithNumber(parts: seq<Part>)
    requires AllValid(parts)
    ensures parts != [] ==> Text(parts) != "" && (Text(parts)[0] == '.' || IsDigit(Text(parts)[0]))
    ensures parts == [] ==> Text(parts) == ""
  {
    if parts != [] {
      var p := parts[0];
      assert p in parts;
      assert Text(parts)[0] == p.Number()[0];
    }
  }

  /** The one way the checks can be passed by: a sum of exactly 2^63 meets a term of exactly 2^63. */
  predicate Meets(d: nat, terms: seq<nat>, i: nat) {
    i < |terms| && d + Sum(terms[..i]) == TOP && terms[i] == TOP
  }

  lemma {:induction false} RegisterExact(d: nat, terms: seq<nat>)
    requires d <= TOP && forall i :: !Meets(d, terms, i)
    ensures Register(d, terms) == if d + Sum(terms) <= TOP then Some(d + Sum(terms)) else None
    decreases |terms|
  {
    if terms != [] {
      assert !Meets(d, terms, 0);
      assert terms[..0] == [];
      var d1, rest := d + terms[0], terms[1..];
      if d1 <= TOP {
        forall i
          ensures !Meets(d1, rest, i)
        {
          MeetsShifts(d, terms, i);
        }
        RegisterExact(d1, rest);
      }
    }
  }

  lemma MeetsShifts(d: nat, terms: seq<nat>, i: nat)
    requires terms != []
    ensures Meets(d + terms[0], terms[1..], i) <==> Meets(d, terms, i + 1)
  {
    if i + 1 < |terms| {
      assert terms[..i + 1][1..] == terms[1..][..i];
    }
  }

  /** There the register wraps to 0 and forgets everything before. */
  lemma {:induction false} RegisterForgets(d: nat, terms: seq<nat>, i: nat)
    requires Meets(d, terms, i)
    ensures Register(d, terms) == Register(0, terms[i + 1..]) && d + Sum(terms) > TOP
    decreases i
  {
    if i == 0 {
      assert terms[..0] == [];
    } else {
      assert terms[..i][1..] == terms[1..][..i - 1];
      RegisterForgets(d + terms[0], terms[1..], i - 1);
      assert terms[1..][i..] == terms[i + 1..];
    }
  }

  /** What the parser should say for a sum, negated or not: 2^63 itself only has a negative. */
  function Exact(neg: bool, sum: nat): Result {
    var v: int := sum;
    if neg then (if v <= TOP then Ok(-v) else Bad) else if v < TOP then Ok(v) else Bad
  }

  lemma SettleIsExact(neg: bool, d: Option<nat>)
    requires d.Some? ==> d.value <= TOP
    ensures Settle(neg, d) == if d.None? then Bad else Exact(neg, d.value)
  {
  }

  lemma {:induction false} RegisterBounded(d: nat, terms: seq<nat>)
    requires d <= TOP
    ensures Register(d, terms).Some? ==> Register(d, terms).value <= TOP
    decreases |terms|
  {
    if terms != [] && !Over(d, terms[0]) {
      RegisterBounded(Uint64(d + terms[0]), terms[1..]);
    }
  }

  function Signed(sign: string, parts: seq<Part>): string {
    sign + Text(parts)
  }

  predicate InRange(neg: bool, sum: nat) {
    sum < TOP || (neg && sum == TOP)
  }

  /** Where the parser slips, by sums alone: a sum of exactly 2^63 meets a term of exactly 2^63, and what follows
      has a sum in range or makes the parser slip again. */
  ghost predicate Slips(neg: bool, terms: seq<nat>)
    decreases |terms|
  {
    exists i: nat :: Meets(0, terms, i) && (InRange(neg, Sum(terms[i + 1..])) || Slips(neg, terms[i + 1..]))
  }

  /** The parser accepts exactly the sums in range and the spans on which it slips. */
  lemma {:induction false} AcceptsIff(neg: bool, terms: seq<nat>)
    ensures Settle(neg, Register(0, terms)) != Bad <==> InRange(neg, Sum(terms)) || Slips(neg, terms)
    decreases |terms|
  {
    RegisterBounded(0, terms);
    SettleIsExact(neg, Register(0, terms));
    if i: nat :| Meets(0, terms, i) {
      RegisterForgets(0, terms, i);
      AcceptsIff(neg, terms[i + 1..]);
      forall j: nat | Meets(0, terms, j)
        ensures j == i
      {
        MeetsOnce(terms, i, j);
      }
    } else {
      RegisterExact(0, terms);
    }
  }

  lemma MeetsOnce(terms: seq<nat>, i: nat, j: nat)
    requires Meets(0, terms, i) && Meets(0, terms, j)
    ensures i == j
  {
    if i < j {
      SumGrows(terms, i, j);
    } else if j < i {
      SumGrows(terms, j, i);
    }
  }

  lemma {:induction false} SumGrows(terms: seq<nat>, i: nat, j: nat)
    requires i < j <= |terms|
    ensures Sum(terms[..j]) >= Sum(terms[..i]) + terms[i]
    decreases i
  {
    var t := terms[..j];
    if i == 0 {
      assert terms[..0] == [];
    } else {
      assert terms[..i][1..] == terms[1..][..i - 1] && t[1..] == terms[1..][..j - 1];
      SumGrows(terms[1..], i - 1, j - 1);
    }
  }

  lemma SignedParts(sign: string, parts: seq<Part>, round: Rounding)
    requires sign in {"", "-", "+"} && parts != [] && AllValid(parts) && Sound(round)
    ensures ParseSigned(Signed(sign, parts), round) == Settle(sign == "-", Register(0, Terms(parts, round)))
  {
    var s := Signed(sign, parts);
    StartsWithNumber(parts);
    assert Unsigned(s) == Text(parts);
    assert Text(parts) != "0" by {
      var p := parts[0];
      assert p in parts;
      UnitHasNoDigit(p.unit);
      assert |Text(parts)| >= 2;
    }
    PartsAreRegister(parts, 0, round);
  }

  /** For every sequence of numbers and units, signed or not, and however fractions are rounded: the parser
      returns the exact sum, and refuses exactly the sums out of range, if and only if it does not slip. */
  lemma ParserExactIff(sign: string, parts: seq<Part>, round: Rounding)
    requires sign in {"", "-", "+"} && parts != [] && AllValid(parts) && Sound(round)
    ensures var terms := Terms(parts, round);
            ParseSigned(Signed(sign, parts), round) == Exact(sign == "-", Sum(terms)) <==> !Slips(sign == "-", terms)
  {
    var terms := Terms(parts, round);
    SignedParts(sign, parts, round);
    RegisterExactIff(sign == "-", terms);
  }

  lemma RegisterExactIff(neg: bool, terms: seq<nat>)
    ensures Settle(neg, Register(0, terms)) == Exact(neg, Sum(terms)) <==> !Slips(neg, terms)
  {
    AcceptsIff(neg, terms);
    if i: nat :| Meets(0, terms, i) {
      RegisterForgets(0, terms, i);
    } else {
      RegisterExact(0, terms);
      SettleIsExact(neg, Register(0, terms));
    }
  }

  /** Sums in range never slip: then the parser returns the sum. */
  lemma InRangeIsExact(parts: seq<Part>, round: Rounding)
    requires parts != [] && AllValid(parts) && Sound(round) && Sum(Terms(parts, round)) < TOP
    ensures ParseSigned(Text(parts), round) == Ok(Sum(Terms(parts, round)))
  {
    var terms := Terms(parts, round);
    forall i | Meets(0, terms, i)
      ensures false
    {
      RegisterForgets(0, terms, i);
    }
    assert Signed("", parts) == Text(parts);
    ParserExactIff("", parts, round);
  }

  lemma {:induction false} TextConcat(a: seq<Part>, b: seq<Part>)
    ensures Text(a + b) == Text(a) + Text(b)
    decreases |a|
  {
    if a == [] {
      assert a + b == b;
    } else {
      TextConcat(a[1..], b);
      assert (a + b)[1..] == a[1..] + b;
    }
  }

  lemma {:induction false} TermsConcat(a: seq<Part>, b: seq<Part>, round: Rounding)
    requires AllValid(a) && AllValid(b)
    ensures AllValid(a + b) && Sum(Terms(a + b, round)) == Sum(Terms(a, round)) + Sum(Terms(b, round))
    decreases |a|
  {
    hide Duration.Value;
    if a == [] {
      assert a + b == b;
    } else {
      TermsConcat(a[1..], b, round);
      assert (a + b)[1..] == a[1..] + b;
    }
  }

  /** Parsing a concatenation is adding the parses. */
  lemma ConcatenationAdds(a: seq<Part>, b: seq<Part>, round: Rounding)
    requires a != [] && b != [] && AllValid(a) && AllValid(b) && Sound(round)
    requires Sum(Terms(a, round)) + Sum(Terms(b, round)) < TOP
    ensures var x, y := ParseSigned(Text(a), round), ParseSigned(Text(b), round);
            x.Ok? && y.Ok? && ParseSigned(Text(a) + Text(b), round) == Ok(x.v + y.v)
  {
    hide ParseSigned, Text, Terms, Sum, AllValid;
    Concatenation(a, b, round);
    InRangeIsExact(a, round);
    InRangeIsExact(b, round);
    InRangeIsExact(a + b, round);
  }

  lemma Concatenation(a: seq<Part>, b: seq<Part>, round: Rounding)
    requires a != [] && AllValid(a) && AllValid(b)
    ensures AllValid(a + b) && a + b != [] && Text(a) + Text(b) == Text(a + b)
    ensures Sum(Terms(a, round)) + Sum(Terms(b, round)) == Sum(Terms(a + b, round))
  {
    TermsConcat(a, b, round);
    TextConcat(a, b);
  }

  // ---- nothing else is accepted

  lemma Rejoin(s: string, i: nat)
    requires i <= |s|
    ensures s == s[..i] + s[i..]
  {
  }

  /** The digits and point that NumberOf reads, put back before what it leaves. */
  lemma CutAtPoint(s: string, i: nat, j: nat)
    requires i < |s| && s[i] == '.' && j <= |s[i..][1..]|
    ensures s == (s[..i] + ("." + s[i..][1..][..j])) + s[i..][1..][j..]
  {
    var s2 := s[i..][1..];
    Rejoin(s, i);
    Rejoin(s2, j);
    assert s[i..] == "." + s2;
    Regroup3(s[..i], ".", s2[..j], s2[j..]);
  }

  lemma CutAtEnd(s: string, i: nat)
    requires i <= |s|
    ensures s == (s[..i] + "") + s[i..]
  {
    assert s[..i] + "" == s[..i];
  }

  lemma NumberSplits(s: string, unit: string) returns (p: Part)
    ensures s == p.Number() + NumberOf(s).rem && p.unit == unit
    ensures AllDigits(p.whole) && AllDigits(p.fraction) && (!p.point ==> p.fraction == "")
    ensures NumberOf(s).digits <==> p.whole != "" || p.fraction != ""
  {
    hide Value, FitLength, Pow10;
    var s1 := s[Digits(s)..];
    if s1 != "" && s1[0] == '.' {
      var s2 := s1[1..];
      p := Part(s[..Digits(s)], true, s2[..Digits(s2)], unit);
      CutAtPoint(s, Digits(s), Digits(s2));
    } else {
      p := Part(s[..Digits(s)], false, "", unit);
      CutAtEnd(s, Digits(s));
    }
  }

  lemma Regroup3(a: string, b: string, c: string, d: string)
    ensures a + (b + (c + d)) == (a + (b + c)) + d
  {
  }

  lemma Joined(a: string, b: string, c: string)
    ensures (a + b) + c == a + (b + c)
  {
  }

  lemma TurnHasPart(s: string, d: nat, round: Rounding) returns (p: Part)
    requires s != "" && Turn(s, d, round).Some?
    ensures p.Valid() && s == p.Text() + Turn(s, d, round).value.s
  {
    hide NumberOf, Digits, Value, FitLength, UnitLength;
    var rem := NumberOf(s).rem;
    var i := UnitLength(rem);
    p := NumberSplits(s, rem[..i]);
    Rejoin(rem, i);
    Joined(p.Number(), rem[..i], rem[i..]);
  }

  /** Every accepted text is such a sequence of parts, so the exactness above covers all the parser accepts. */
  lemma {:induction false} AcceptedIsParts(s: string, d: nat, round: Rounding) returns (parts: seq<Part>)
    requires ParseParts(s, d, round).Some?
    ensures AllValid(parts) && Text(parts) == s
    decreases |s|
  {
    if s == "" {
      parts := [];
    } else {
      var p := TurnHasPart(s, d, round);
      var r := Turn(s, d, round).value;
      var rest := AcceptedIsParts(r.s, r.d, round);
      parts := [p] + rest;
      assert parts[1..] == rest;
    }
  }

  // ---- spellings and bare digits

  function SpelledPart(p: Part, sign: string): S.Part {
    S.Part(sign + p.Number(), p.unit)
  }

  function Spelled(parts: seq<Part>, sign: string): (r: seq<S.Part>)
    ensures |r| == |parts|
  {
    if parts == [] then [] else [SpelledPart(parts[0], sign)] + Spelled(parts[1..], "")
  }

  function InUnits(parts: seq<Part>): (r: seq<Part>)
    ensures |r| == |parts|
  {
    if parts == [] then [] else [parts[0].(unit := S.UnitOfWord(parts[0].unit))] + InUnits(parts[1..])
  }

  /** A part whose unit may be spelled out. */
  ghost predicate Written(p: Part) {
    && AllDigits(p.whole) && AllDigits(p.fraction) && (!p.point ==> p.fraction == "")
    && (p.whole != "" || p.fraction != "") && S.IsWord(p.unit)
  }

  lemma WrittenIsNumber(p: Part, sign: string)
    requires Written(p) && sign in {"", "-", "+"}
    ensures S.IsNumber(SpelledPart(p, sign).number)
    ensures p.(unit := S.UnitOfWord(p.unit)).Valid()
  {
    var n := sign + p.Number();
    forall c | c in n
      ensures c in S.BARRIERS
    {
      assert c in sign || c in p.whole || c == '.' || c in p.fraction;
      if c in p.whole || c in p.fraction {
        assert IsDigit(c);
        DigitIsBarrier(c);
      }
    }
  }

  lemma DigitIsBarrier(c: char)
    requires IsDigit(c)
    ensures c in S.BARRIERS
  {
    assert S.BARRIERS[c as int - '0' as int] == c;
  }

  /** One number and unit in front of what is already right. */
  lemma SpelledFirst(parts: seq<Part>, sign: string)
    requires parts != [] && sign in {"", "-", "+"} && Written(parts[0])
    requires Text(parts[1..]) == S.Text(Spelled(parts[1..], ""))
    requires Text(InUnits(parts[1..])) == S.Text(S.InUnits(Spelled(parts[1..], "")))
    ensures S.Text(Spelled(parts, sign)) == Signed(sign, parts)
    ensures S.Text(S.InUnits(Spelled(parts, sign))) == Signed(sign, InUnits(parts))
  {
    hide Written;
    var p, rest := parts[0], parts[1..];
    var spelled := Spelled(parts, sign);
    assert spelled[1..] == Spelled(rest, "") && InUnits(parts)[1..] == InUnits(rest);
    assert S.InUnits(spelled)[1..] == S.InUnits(spelled[1..]);
    Regroup(sign, p.Number(), p.unit, Text(rest));
    Regroup(sign, p.Number(), S.UnitOfWord(p.unit), Text(InUnits(rest)));
  }

  lemma {:induction false} SpelledText(parts: seq<Part>, sign: string)
    requires parts != [] && sign in {"", "-", "+"} && forall p :: p in parts ==> Written(p)
    ensures S.Text(Spelled(parts, sign)) == Signed(sign, parts)
    ensures S.Spelled(Spelled(parts, sign)) && AllValid(InUnits(parts))
    ensures S.Text(S.InUnits(Spelled(parts, sign))) == Signed(sign, InUnits(parts))
    decreases |parts|
  {
    var p, rest := parts[0], parts[1..];
    assert p in parts;
    WrittenIsNumber(p, sign);
    var spelled := Spelled(parts, sign);
    assert spelled[1..] == Spelled(rest, "") && InUnits(parts)[1..] == InUnits(rest);
    if rest != [] {
      SpelledText(rest, "");
      assert Signed("", rest) == Text(rest) && Signed("", InUnits(rest)) == Text(InUnits(rest));
    }
    SpelledFirst(parts, sign);
  }

  lemma Regroup(a: string, b: string, c: string, d: string)
    ensures (a + b) + (c + d) == a + ((b + c) + d)
  {
  }

  /** However the units are spelled and wherever spaces stand, the span is parsed as in canonical units. */
  lemma SpellingsAgree(text: string, sign: string, parts: seq<Part>, round: Rounding)
    requires sign in {"", "-", "+"} && parts != [] && forall p :: p in parts ==> Written(p)
    requires S.WithoutSpaces(text) == Signed(sign, parts)
    ensures Parsed(text, round) == ParseSigned(Signed(sign, InUnits(parts)), round)
  {
    SpelledText(parts, sign);
    S.NormalisedText(text, Spelled(parts, sign));
    var p := parts[0];
    assert p in parts;
    if AllDigits(text) {
      NoSpacesInDigits(text);
      var k := |sign + p.Number()|;
      assert Signed(sign, parts)[k] == p.unit[0];
      WordStartsWithLetter(p.unit);
    }
  }

  lemma WordStartsWithLetter(w: string)
    requires S.IsWord(w)
    ensures w != "" && !IsDigit(w[0])
  {
  }

  lemma {:induction false} NoSpacesInDigits(s: string)
    requires AllDigits(s)
    ensures S.WithoutSpaces(s) == s
  {
    if s != "" {
      assert AllDigits(s[1..]);
      NoSpacesInDigits(s[1..]);
    }
  }

  /** Bare digits mean seconds, exactly as long as the product fits 64 bits: beyond that the bare form wraps
      while the form with its unit is refused. */
  lemma DigitsAreSecondsIff(text: string, round: Rounding)
    requires text != "" && AllDigits(text) && Sound(round)
    ensures Parsed(text, round) == Parsed(text + "s", round) <==> Value(text) <= 9223372036
    ensures Value(text) <= 9223372036 ==> Parsed(text, round) == Ok(1000000000 * Value(text))
  {
    BareDigits(text, round);
    OneSpelledPart(text, round);
    SecondsSettle(Value(text));
  }

  lemma BareDigits(text: string, round: Rounding)
    requires AllDigits(text)
    ensures Parsed(text, round) == Ok(Int64(1000000000 * Atoi(text)))
  {
  }

  lemma SecondsSettle(n: nat)
    ensures Settle(false, Register(0, [n * 1000000000])) == if n <= 9223372036 then Ok(1000000000 * n) else Bad
    ensures n <= 9223372036 ==> Int64(1000000000 * n) == 1000000000 * n
  {
    OneTerm(n * 1000000000);
  }

  lemma OneSpelledPart(text: string, round: Rounding)
    requires text != "" && AllDigits(text) && Sound(round)
    ensures Parsed(text + "s", round) == Settle(false, Register(0, [Value(text) * 1000000000]))
  {
    var p := Part(text, false, "", "s");
    assert Written(p) && [p][1..] == [] && text + "" == text;
    assert InUnits([p]) == [p];
    assert Text([p]) == text + "s" && Signed("", [p]) == text + "s";
    NoSpacesBefore(text);
    SpellingsAgree(text + "s", "", [p], round);
    SignedParts("", [p], round);
    assert p.Term(round) == Value(text) * 1000000000 && Terms([p], round) == [p.Term(round)];
  }

  lemma OneTerm(t: nat)
    ensures Register(0, [t]) == if t <= TOP then Some(t) else None
  {
    assert [t][1..] == [];
    assert t <= TOP ==> Register(t, []) == Some(t);
  }

  lemma {:induction false} NoSpacesBefore(s: string)
    requires AllDigits(s)
    ensures S.WithoutSpaces(s + "s") == s + "s"
    decreases |s|
  {
    if s == "" {
      assert S.WithoutSpaces("") == "";
      assert "s"[1..] == "";
    } else {
      assert (s + "s")[1..] == s[1..] + "s";
      NoSpacesBefore(s[1..]);
    }
  }

  // ---- a span on which the parser slips

  lemma Reads(s: string, i: nat, v: nat)
    requires i < |s| && AllDigits(s[..i]) && IsDigit(s[i]) && Value(s[..i]) == v
    ensures AllDigits(s[..i + 1]) && Value(s[..i + 1]) == 10 * v + (s[i] as int - '0' as int)
  {
    assert s[..i + 1] == s[..i] + [s[i]];
    ValueStep(s, i);
  }

  lemma FirstDigits(s: string)
    requires |s| == 19 && s[0] == '9' && s[1] == '2' && s[2] == '2' && s[3] == '3' && s[4] == '3'
    ensures AllDigits(s[..5]) && Value(s[..5]) == 92233
  {
    Reads(s, 0, 0);
    Reads(s, 1, 9);
    Reads(s, 2, 92);
    Reads(s, 3, 922);
    Reads(s, 4, 9223);
  }

  lemma NextDigits(s: string)
    requires |s| == 19 && s[5] == '7' && s[6] == '2' && s[7] == '0' && s[8] == '3' && s[9] == '6'
    requires AllDigits(s[..5]) && Value(s[..5]) == 92233
    ensures AllDigits(s[..10]) && Value(s[..10]) == 9223372036
  {
    Reads(s, 5, 92233);
    Reads(s, 6, 922337);
    Reads(s, 7, 9223372);
    Reads(s, 8, 92233720);
    Reads(s, 9, 922337203);
  }

  lemma MoreDigits(s: string)
    requires |s| == 19 && s[10] == '8' && s[11] == '5' && s[12] == '4' && s[13] == '7' && s[14] == '7'
    requires AllDigits(s[..10]) && Value(s[..10]) == 9223372036
    ensures AllDigits(s[..15]) && Value(s[..15]) == 922337203685477
  {
    Reads(s, 10, 9223372036);
    Reads(s, 11, 92233720368);
    Reads(s, 12, 922337203685);
    Reads(s, 13, 9223372036854);
    Reads(s, 14, 92233720368547);
  }

  lemma LastDigits(s: string)
    requires |s| == 19 && s[15] == '5' && s[16] == '8' && s[17] == '0' && s[18] == '8'
    requires AllDigits(s[..15]) && Value(s[..15]) == 922337203685477
    ensures AllDigits(s[..19]) && Value(s[..19]) == 9223372036854775808
  {
    Reads(s, 15, 922337203685477);
    Reads(s, 16, 9223372036854775);
    Reads(s, 17, 92233720368547758);
    Reads(s, 18, 922337203685477580);
  }

  lemma TopInDigits()
    ensures AllDigits("9223372036854775808") && Value("9223372036854775808") == TOP
  {
    var s := "9223372036854775808";
    FirstDigits(s);
    NextDigits(s);
    MoreDigits(s);
    LastDigits(s);
    assert s[..19] == s;
  }

  /** Twice 2^63 nanoseconds, about 584 years, is accepted as no time at all. */
  lemma SlipExample(round: Rounding)
    requires Sound(round)
    ensures Parsed("9223372036854775808ns9223372036854775808ns", round) == Ok(0)
  {
    var n := "9223372036854775808";
    var text := "9223372036854775808ns9223372036854775808ns";
    TopInDigits();
    ExampleText();
    NoSpaceInExample();
    TwoTops(n, text, round);
    TwiceTop();
  }

  lemma ExampleText()
    ensures var n := "9223372036854775808";
            "9223372036854775808ns9223372036854775808ns" == (n + "ns") + ((n + "ns") + "")
  {
    var n := "9223372036854775808";
    assert n + "ns" == "9223372036854775808ns";
    assert (n + "ns") + "" == n + "ns";
  }

  lemma NoSpaceInExample()
    ensures var text := "9223372036854775808ns9223372036854775808ns"; S.WithoutSpaces(text) == text
  {
    NoSpaces("9223372036854775808ns9223372036854775808ns");
  }

  lemma TwoTexts(p: Part, n: string)
    requires p == Part(n, false, "", "ns")
    ensures Text([p, p]) == (n + "ns") + ((n + "ns") + "") && InUnits([p, p]) == [p, p]
  {
    assert [p, p][1..] == [p] && [p][1..] == [] && n + "" == n;
    assert Text([p]) == (n + "ns") + "";
    assert InUnits([p]) == [p];
  }

  lemma TwoTerms(p: Part, n: string, round: Rounding)
    requires Sound(round) && AllDigits(n) && n != "" && Value(n) == TOP && p == Part(n, false, "", "ns")
    ensures AllValid([p, p]) && Terms([p, p], round) == [TOP, TOP]
  {
    assert [p, p][1..] == [p] && [p][1..] == [];
    assert p.Term(round) == TOP;
    assert Terms([p], round) == [TOP];
  }

  lemma TwoTops(n: string, text: string, round: Rounding)
    requires Sound(round) && AllDigits(n) && n != "" && Value(n) == TOP
    requires text == (n + "ns") + ((n + "ns") + "") && S.WithoutSpaces(text) == text
    ensures Parsed(text, round) == Settle(false, Register(0, [TOP, TOP]))
  {
    hide Value, Register, Settle, S.WithoutSpaces;
    var p := Part(n, false, "", "ns");
    var parts := [p, p];
    TwoTexts(p, n);
    assert "" + text == text;
    SpellingsAgree(text, "", parts, round);
    SignedParts("", parts, round);
    TwoTerms(p, n, round);
  }

  lemma TwiceTop()
    ensures Register(0, [TOP, TOP]) == Some(0)
  {
    assert [TOP, TOP][1..] == [TOP] && [TOP][1..] == [];
    assert Register(0, [TOP, TOP]) == Register(TOP, [TOP]);
    assert Register(TOP, [TOP]) == Register(0, []);
  }

  lemma {:induction false} NoSpaces(s: string)
    requires ' ' !in s
    ensures S.WithoutSpaces(s) == s
  {
    if s != "" {
      NoSpaces(s[1..]);
    }
  }
}
