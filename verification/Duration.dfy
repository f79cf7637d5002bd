/** Time spans such as "5min 20s": digits by hand into 64-bit registers, whose wrap-around is written out. The
    one float64 expression, which turns a decimal fraction into nanoseconds, is an oracle of which only
    the bound is known. */
module Duration {
  import S = Spelling
  import opened Options

  const TOP: nat := 0x8000_0000_0000_0000
  const WRAP: nat := 0x1_0000_0000_0000_0000

  function Uint64(x: nat): nat {
    x % WRAP
  }

  function Int64(x: int): int {
    (x + TOP) % WRAP - TOP
  }

  predicate IsDigit(c: char) {
    '0' <= c <= '9'
  }

  predicate AllDigits(s: string) {
    forall i :: 0 <= i < |s| ==> IsDigit(s[i])
  }

  /** The number a digit string denotes. */
  function Value(s: string): nat
    requires AllDigits(s)
  {
    if s == "" then 0 else 10 * Value(s[..|s| - 1]) + (s[|s| - 1] as int - '0' as int)
  }

  /** The length of the longest prefix of digits. */
  function Digits(s: string): (n: nat)
    ensures n <= |s| && AllDigits(s[..n])
    ensures n < |s| ==> !IsDigit(s[n])
  {
    if s != "" && IsDigit(s[0]) then
      var n := Digits(s[1..]);
      assert s[..n + 1] == [s[0]] + s[1..][..n];
      n + 1
    else 0
  }

  function Lead(s: string): (n: nat) {
    Value(s[..Digits(s)])
  }

  function Pow10(k: nat): (p: nat)
    ensures p >= 1
  {
    if k == 0 then 1 else 10 * Pow10(k - 1)
  }

  /** How many digits of a fraction the register can take. */
  function FitLength(s: string): nat {
    FitUpTo(s, Digits(s))
  }

  function FitUpTo(s: string, n: nat): (k: nat)
    requires n <= Digits(s)
    ensures k <= n && Value(s[..k]) <= TOP
  {
    assert AllDigits(s[..n]) by { DigitsBelow(s, n); }
    if Value(s[..n]) <= TOP then n else FitUpTo(s, n - 1)
  }

  /** The digits go on exactly as long as there are any. */
  lemma DigitsAt(s: string, i: nat)
    requires i <= Digits(s)
    ensures Digits(s) <= |s| && (i < Digits(s) <==> i < |s| && IsDigit(s[i]))
    ensures AllDigits(s[..i]) && FitLength(s) <= Digits(s) && (i == 0 ==> Value(s[..i]) == 0)
  {
    hide Digits, FitUpTo;
    DigitsBelow(s, i);
    if i < Digits(s) {
      assert IsDigit(s[..Digits(s)][i]);
    }
    assert s[..0] == "";
  }

  lemma DigitsBelow(s: string, n: nat)
    requires n <= Digits(s)
    ensures AllDigits(s[..n])
  {
    forall i | 0 <= i < n
      ensures IsDigit(s[..n][i])
    {
      assert s[..Digits(s)][i] == s[i];
    }
  }

  lemma ValueStep(s: string, i: nat)
    requires i < |s| && AllDigits(s[..i + 1])
    ensures AllDigits(s[..i]) && Value(s[..i + 1]) == 10 * Value(s[..i]) + (s[i] as int - '0' as int)
  {
    var t := s[..i + 1];
    assert t[..i] == s[..i] && t[i] == s[i];
    forall j | 0 <= j < i
      ensures IsDigit(s[..i][j])
    {
      assert t[j] == s[j];
    }
  }

  lemma {:induction false} ValueGrows(s: string, i: nat, j: nat)
    requires i <= j <= Digits(s)
    ensures AllDigits(s[..i]) && AllDigits(s[..j]) && Value(s[..i]) <= Value(s[..j])
    decreases j
  {
    DigitsBelow(s, i);
    DigitsBelow(s, j);
    if i < j {
      ValueGrows(s, i, j - 1);
      ValueStep(s, j - 1);
    }
  }

  /** The digits the register takes are the longest prefix whose value is at most 2^63. */
  lemma {:induction false} FitIsLongest(s: string, j: nat)
    requires j <= Digits(s)
    ensures AllDigits(s[..j]) && (Value(s[..j]) <= TOP <==> j <= FitLength(s))
  {
    FitUpToLongest(s, Digits(s), j);
  }

  lemma {:induction false} FitUpToLongest(s: string, n: nat, j: nat)
    requires j <= n <= Digits(s)
    ensures AllDigits(s[..j]) && (Value(s[..j]) <= TOP <==> j <= FitUpTo(s, n))
  {
    DigitsBelow(s, n);
    DigitsBelow(s, j);
    if Value(s[..n]) <= TOP {
      ValueGrows(s, j, n);
    } else if j < n {
      FitUpToLongest(s, n - 1, j);
    }
  }

  /** The true fraction lies between x/scale and (x+1)/scale. */
  lemma {:induction false} FractionBracketed(s: string, k: nat, n: nat)
    requires k <= n <= Digits(s)
    ensures AllDigits(s[..k]) && AllDigits(s[..n])
    ensures Value(s[..k]) * Pow10(n - k) <= Value(s[..n]) < (Value(s[..k]) + 1) * Pow10(n - k)
    decreases n
  {
    DigitsBelow(s, k);
    DigitsBelow(s, n);
    if k < n {
      FractionBracketed(s, k, n - 1);
      ValueStep(s, n - 1);
      NextDigit(Value(s[..k]), Pow10(n - 1 - k), Value(s[..n - 1]), s[n - 1] as int - '0' as int);
    }
  }

  lemma NextDigit(x: nat, p: nat, v: nat, digit: nat)
    requires x * p <= v < (x + 1) * p && digit < 10
    ensures x * (10 * p) <= 10 * v + digit < (x + 1) * (10 * p)
  {
    TenTimes(x, p);
    TenTimes(x + 1, p);
  }

  lemma TenTimes(x: nat, p: nat)
    ensures x * (10 * p) == 10 * (x * p)
  {
  }

  /** `leadingInt`: succeeds exactly when the digits denote at most 2^63. */
  method LeadingInt(s: string) returns (x: nat, rem: string, ok: bool)
    ensures ok <==> Lead(s) <= TOP
    ensures ok ==> x == Lead(s) && rem == s[Digits(s)..]
    ensures !ok ==> x == 0 && rem == ""
  {
    var i := 0;
    x := 0;
    while i < |s|
      invariant i <= Digits(s) && AllDigits(s[..i])
      invariant x == Value(s[..i]) <= TOP
    {
      var c := s[i];
      if c < '0' || c > '9' {
        break;
      }
      assert i < Digits(s);
      ValueGrows(s, i + 1, Digits(s));
      ValueStep(s, i);
      if x > TOP / 10 {
        return 0, "", false;
      }
      x := Uint64(x * 10 + c as int - '0' as int);
      if x > TOP {
        return 0, "", false;
      }
      i := i + 1;
    }
    return x, s[i..], true;
  }

  lemma NextFits(s: string, i: nat)
    requires i < Digits(s) && AllDigits(s[..i]) && Value(s[..i]) <= TOP
    ensures AllDigits(s[..i + 1]) && Value(s[..i + 1]) == 10 * Value(s[..i]) + (s[i] as int - '0' as int)
    ensures i <= FitLength(s) && (Value(s[..i + 1]) <= TOP <==> i + 1 <= FitLength(s))
  {
    DigitsBelow(s, i + 1);
    ValueStep(s, i);
    FitIsLongest(s, i);
    FitIsLongest(s, i + 1);
  }

  /** `leadingFraction`. */
  method LeadingFraction(s: string) returns (x: nat, scale: nat, rem: string)
    ensures x == Value(s[..FitLength(s)]) && scale == Pow10(FitLength(s)) && rem == s[Digits(s)..]
  {
    hide Digits, FitLength, AllDigits, Value;
    var i := 0;
    x, scale := 0, 1;
    var overflow := false;
    ghost var k := 0;
    DigitsAt(s, 0);
    while i < |s|
      invariant k <= i <= Digits(s) && AllDigits(s[..k])
      invariant x == Value(s[..k]) <= TOP && scale == Pow10(k)
      invariant if overflow then k == FitLength(s) else k == i
    {
      DigitsAt(s, i);
      var c := s[i];
      if c < '0' || c > '9' {
        break;
      }
      i := i + 1;
      if overflow {
        continue;
      }
      NextFits(s, i - 1);
      if x > (TOP - 1) / 10 {
        overflow := true;
        continue;
      }
      var y := Uint64(x * 10 + c as int - '0' as int);
      if y > TOP {
        overflow := true;
        continue;
      }
      x := y;
      scale := scale * 10;
      k := k + 1;
    }
    DigitsAt(s, i);
    FitIsLongest(s, k);
    rem := s[i..];
  }

  // ---- the parser

  /** Nanoseconds in a unit; 0 for a word that is no unit. */
  function UnitOf(u: string): (n: nat)
    ensures n <= 31557600000000000
  {
    if u == "ns" then 1
    else if u == "us" || u == "\U{B5}s" || u == "\U{3BC}s" then 1000
    else if u == "ms" then 1000000
    else if u == "s" then 1000000000
    else if u == "m" then 60000000000
    else if u == "h" then 3600000000000
    else if u == "d" then 86400000000000
    else if u == "w" then 604800000000000
    else if u == "M" then 2630016000000000
    else if u == "y" then 31557600000000000
    else 0
  }

  /** Nanoseconds for the fraction f/scale of a unit, however it is rounded. */
  type Rounding = (nat, nat, nat) -> nat

  ghost predicate Sound(round: Rounding) {
    forall f, scale, unit :: round(f, scale, unit) <= unit
  }

  /** The length of the unit name at the head of s: up to the next digit or point. */
  function UnitLength(s: string): (n: nat)
    ensures n <= |s|
    ensures n < |s| ==> s[n] == '.' || IsDigit(s[n])
    ensures forall i :: 0 <= i < n ==> !(s[i] == '.' || IsDigit(s[i]))
  {
    if s == "" || s[0] == '.' || IsDigit(s[0]) then 0 else 1 + UnitLength(s[1..])
  }

  datatype Number = Number(v: nat, f: nat, scale: nat, rem: string, digits: bool)

  /** The number at the head of s: digits, and perhaps a point and more digits. */
  function NumberOf(s: string): Number {
    var s1 := s[Digits(s)..];
    if s1 != "" && s1[0] == '.' then
      var s2 := s1[1..];
      Number(Lead(s), Value(s2[..FitLength(s2)]), Pow10(FitLength(s2)), s2[Digits(s2)..], Digits(s) > 0 || Digits(s2) > 0)
    else Number(Lead(s), 0, 1, s1, Digits(s) > 0)
  }

  lemma NumberShortens(s: string)
    ensures |NumberOf(s).rem| <= |s|
  {
  }

  /** One number and its unit, as the 64-bit arithmetic has it. */
  function Amount(n: Number, unit: nat, round: Rounding): Option<nat> {
    if unit == 0 || n.v > TOP / unit then None
    else
      var v := Uint64(n.v * unit);
      if n.f > 0 then
        var w := Uint64(v + round(n.f, n.scale, unit));
        if w > TOP then None else Some(w)
      else Some(v)
  }

  datatype Rest = Rest(s: string, d: nat)

  /** One turn of the loop: a number and its unit are added to the sum d. */
  function Turn(s: string, d: nat, round: Rounding): (r: Option<Rest>)
    requires s != ""
    ensures r.Some? ==> |r.value.s| < |s|
  {
    if !(s[0] == '.' || IsDigit(s[0])) || Lead(s) > TOP then None
    else
      var n := NumberOf(s);
      var i := UnitLength(n.rem);
      if !n.digits || i == 0 then None
      else
        var amount := Amount(n, UnitOf(n.rem[..i]), round);
        if amount.None? || Uint64(d + amount.value) > TOP then None
        else
          NumberShortens(s);
          Some(Rest(n.rem[i..], Uint64(d + amount.value)))
  }

  function ParseParts(s: string, d: nat, round: Rounding): Option<nat>
    decreases |s|
  {
    if s == "" then Some(d)
    else
      var r := Turn(s, d, round);
      if r.None? then None else ParseParts(r.value.s, r.value.d, round)
  }

  datatype Result = Ok(v: int) | Bad

  function Negative(s: string): bool {
    s != "" && s[0] == '-'
  }

  function Unsigned(s: string): string {
    if s != "" && (s[0] == '-' || s[0] == '+') then s[1..] else s
  }

  /** The parser on a text in canonical units. */
  function ParseSigned(s: string, round: Rounding): Result {
    var u := Unsigned(s);
    if u == "0" then Ok(0)
    else if u == "" then Bad
    else Settle(Negative(s), ParseParts(u, 0, round))
  }

  /** The sum as a signed 64-bit duration. */
  function Settle(neg: bool, d: Option<nat>): Result {
    if d.None? then Bad
    else if neg then Ok(Int64(-Int64(d.value)))
    else if d.value > TOP - 1 then Bad
    else Ok(Int64(d.value))
  }

  /** strconv.Atoi with its error ignored: it saturates, and an empty string is 0. */
  function Atoi(s: string): nat
    requires AllDigits(s)
  {
    if Value(s) > TOP - 1 then TOP - 1 else Value(s)
  }

  /** `parseSystemdDuration`. */
  function Parsed(text: string, round: Rounding): Result {
    if AllDigits(text) then Ok(Int64(1000000000 * Atoi(text))) else ParseSigned(S.Normalised(text), round)
  }

  /** The loop of `parseSystemdDuration` over numbers and units. */
  method RunParts(text: string, round: Rounding) returns (d: nat, ok: bool)
    requires Sound(round)
    ensures ParseParts(text, 0, round) == if ok then Some(d) else None
  {
    var s := text;
    d := 0;
    while s != ""
      invariant ParseParts(s, d, round) == ParseParts(text, 0, round)
      decreases |s|
    {
      var going;
      s, d, going := RunTurn(s, d, round);
      if !going {
        return 0, false;
      }
    }
    return d, true;
  }

  method RunTurn(text: string, sum: nat, round: Rounding) returns (s: string, d: nat, ok: bool)
    requires text != "" && Sound(round)
    ensures Turn(text, sum, round) == if ok then Some(Rest(s, d)) else None
  {
    s, d := text, sum;
    if !(s[0] == '.' || '0' <= s[0] <= '9') {
      return s, d, false;
    }
    var n, parsed := ReadNumber(s);
    if !parsed || !n.digits {
      return s, d, false;
    }
    s := n.rem;
    var i := MeasureUnit(s);
    if i == 0 {
      return s, d, false;
    }
    var amount := ReadAmount(n, UnitOf(s[..i]), round);
    if amount.None? {
      return s, d, false;
    }
    s := s[i..];
    d := Uint64(d + amount.value);
    ok := d <= TOP;
  }

  method MeasureUnit(s: string) returns (i: nat)
    ensures i == UnitLength(s)
  {
    i := 0;
    while i < |s|
      invariant 0 <= i <= UnitLength(s)
    {
      if s[i] == '.' || '0' <= s[i] <= '9' {
        break;
      }
      i := i + 1;
    }
  }

  method ReadAmount(n: Number, unit: nat, round: Rounding) returns (amount: Option<nat>)
    ensures amount == Amount(n, unit, round)
  {
    if unit == 0 {
      return None;
    }
    var v := n.v;
    if v > TOP / unit {
      return None;
    }
    v := Uint64(v * unit);
    if n.f > 0 {
      v := Uint64(v + round(n.f, n.scale, unit));
      if v > TOP {
        return None;
      }
    }
    return Some(v);
  }

  method ReadNumber(text: string) returns (n: Number, ok: bool)
    ensures ok <==> Lead(text) <= TOP
    ensures ok ==> n == NumberOf(text)
  {
    var v, s, parsed := LeadingInt(text);
    n := Number(0, 0, 1, "", false);
    if !parsed {
      return n, false;
    }
    var pre := |text| != |s|;
    var f, scale, post := 0, 1, false;
    if s != "" && s[0] == '.' {
      s := s[1..];
      var pl := |s|;
      f, scale, s := LeadingFraction(s);
      post := pl != |s|;
    }
    return Number(v, f, scale, s, pre || post), true;
  }

  /** `parseSystemdDuration`. */
  method ParseDuration(text: string, round: Rounding) returns (r: Result)
    requires Sound(round)
    ensures r == Parsed(text, round)
  {
    var notdigits := false;
    for i := 0 to |text|
      invariant !notdigits && AllDigits(text[..i])
    {
      if text[i] < '0' || text[i] > '9' {
        notdigits := true;
        break;
      }
    }
    assert text[..|text|] == text;
    if !notdigits {
      return Ok(Int64(1000000000 * Atoi(text)));
    }
    var s := S.Normalise(text);
    r := ReadSigned(s, round);
  }

  method ReadSigned(text: string, round: Rounding) returns (r: Result)
    requires Sound(round)
    ensures r == ParseSigned(text, round)
  {
    var s := text;
    var neg := false;
    if s != "" && (s[0] == '-' || s[0] == '+') {
      neg := s[0] == '-';
      s := s[1..];
    }
    if s == "0" {
      return Ok(0);
    }
    if s == "" {
      return Bad;
    }
    var d, ok := RunParts(s, round);
    r := Conclude(neg, d, ok);
  }

  method Conclude(neg: bool, d: nat, ok: bool) returns (r: Result)
    ensures r == Settle(neg, if ok then Some(d) else None)
  {
    if !ok {
      return Bad;
    }
    if neg {
      return Ok(Int64(-Int64(d)));
    }
    if d > TOP - 1 {
      return Bad;
    }
    return Ok(Int64(d));
  }
}
