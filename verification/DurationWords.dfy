/** What each unit word is worth, read off texts that go through the whole parser. */
module DurationWords {
  import S = Spelling
  import opened Duration
  import opened DurationExact
  import opened Options

  const SECOND: nat := 1000000000

  /** How long a word stands for, as its reader expects: a month is 30.44 days, a year 365.25. */
  predicate Lasts(w: string, ns: nat) {
    || (w == "ns" && ns == 1)
    || (w in {"us", "usec", "\U{B5}s", "\U{3BC}s"} && ns == 1000)
    || (w in {"ms", "msec"} && ns == 1000000)
    || (w in {"s", "sec", "second", "seconds"} && ns == SECOND)
    || (w in {"m", "min", "minute", "minutes"} && ns == 60 * SECOND)
    || (w in {"h", "hr", "hour", "hours"} && ns == 3600 * SECOND)
    || (w in {"d", "day", "days"} && ns == 24 * 3600 * SECOND)
    || (w in {"w", "week", "weeks"} && ns == 7 * 24 * 3600 * SECOND)
    || (w in {"M", "month", "months"} && ns == 3044 * 24 * 36 * SECOND)
    || (w in {"y", "year", "years"} && ns == 36525 * 24 * 36 * SECOND)
  }

  /** A number and a word, signed or not, is that many nanoseconds, or refused when it does not fit 64 bits. */
  lemma WordsLast(sign: string, n: string, w: string, ns: nat, round: Rounding)
    requires sign in {"", "-", "+"} && n != "" && AllDigits(n) && Sound(round) && Lasts(w, ns)
    ensures var all: int := Value(n) * ns;
            Parsed(sign + n + w, round) ==
            if sign == "-" && all <= 0x8000_0000_0000_0000 then Ok(-all)
            else if sign != "-" && all < 0x8000_0000_0000_0000 then Ok(all)
            else Bad
  {
    hide Parsed, Value, Lasts, Register, Settle, UnitOf, S.UnitOfWord, S.IsWord, Sound, AllDigits;
    WordMeans(w, ns);
    OnePart(sign, n, w, round);
    OneTerm(Value(n) * ns);
    SettleIsExact(sign == "-", Register(0, [Value(n) * ns]));
  }

  lemma WordMeans(w: string, ns: nat)
    requires Lasts(w, ns)
    ensures S.IsWord(w) && ' ' !in w && UnitOf(S.UnitOfWord(w)) == ns
  {
    hide S.IsWord;
    WordKnown(w, ns);
  }

  lemma WordKnown(w: string, ns: nat)
    requires Lasts(w, ns)
    ensures S.IsWord(w)
  {
  }

  lemma WithOneWord(sign: string, n: string, w: string)
    requires sign in {"", "-", "+"} && AllDigits(n) && S.IsWord(w) && ' ' !in w
    ensures S.WithoutSpaces(sign + n + w) == sign + n + w
  {
    hide S.IsWord;
    assert ' ' !in sign + n + w;
    NoSpaces(sign + n + w);
  }

  lemma OneText(sign: string, n: string, p: Part)
    requires p.whole == n && !p.point
    ensures Signed(sign, [p]) == sign + n + p.unit && InUnits([p]) == [p.(unit := S.UnitOfWord(p.unit))]
  {
    hide S.UnitOfWord;
    assert n + "" == n && [p][1..] == [];
    assert Text([p]) == n + p.unit;
    assert InUnits([p]) == [p.(unit := S.UnitOfWord(p.unit))] + InUnits([]);
  }

  lemma OneSum(p: Part, round: Rounding)
    requires p.Valid() && p.fraction == ""
    ensures AllValid([p]) && Terms([p], round) == [Value(p.whole) * UnitOf(p.unit)]
  {
    hide UnitOf;
    assert [p][1..] == [];
    assert Terms([p], round) == [p.Term(round)];
  }

  lemma OnePart(sign: string, n: string, w: string, round: Rounding)
    requires sign in {"", "-", "+"} && n != "" && AllDigits(n) && Sound(round) && S.IsWord(w) && ' ' !in w
    ensures Parsed(sign + n + w, round) == Settle(sign == "-", Register(0, [Value(n) * UnitOf(S.UnitOfWord(w))]))
  {
    hide Value, Register, Settle, UnitOf, S.UnitOfWord, S.IsWord, Parsed, ParseSigned, Signed, InUnits, Text, Terms,
         S.WithoutSpaces, Sound, Part.Valid;
    var p := Part(n, false, "", w);
    var q := p.(unit := S.UnitOfWord(w));
    OneText(sign, n, p);
    WithOneWord(sign, n, w);
    WrittenIsNumber(p, sign);
    SpellingsAgree(sign + n + w, sign, [p], round);
    OneSum(q, round);
    SignedParts(sign, [q], round);
  }

  lemma Small()
    ensures AllDigits("1") && Value("1") == 1 && AllDigits("7") && Value("7") == 7
    ensures AllDigits("60") && Value("60") == 60 && AllDigits("24") && Value("24") == 24
  {
    Reads("1", 0, 0);
    Reads("7", 0, 0);
    Reads("60", 0, 0);
    Reads("60", 1, 6);
    Reads("24", 0, 0);
    Reads("24", 1, 2);
    assert "60"[..2] == "60" && "24"[..2] == "24" && "1"[..1] == "1" && "7"[..1] == "7";
  }

  /** An hour is sixty minutes, a day 24 hours, a week seven days. */
  lemma UnitsNest(round: Rounding)
    requires Sound(round)
    ensures Parsed("1h", round) == Parsed("60min", round) == Ok(3600000000000)
    ensures Parsed("1day", round) == Parsed("24hours", round) == Ok(86400000000000)
    ensures Parsed("1w", round) == Parsed("7d", round) == Ok(604800000000000)
  {
    hide Parsed, Value, Lasts;
    Small();
    SmallWords();
    Whole("1", "h", 3600000000000, round);
    Whole("60", "min", 60000000000, round);
    Whole("1", "day", 86400000000000, round);
    Whole("24", "hours", 3600000000000, round);
    Whole("1", "w", 604800000000000, round);
    Whole("7", "d", 86400000000000, round);
    assert "1" + "h" == "1h" && "60" + "min" == "60min" && "1" + "day" == "1day";
    assert "24" + "hours" == "24hours" && "1" + "w" == "1w" && "7" + "d" == "7d";
  }

  lemma SmallWords()
    ensures Lasts("min", 60000000000) && Lasts("h", 3600000000000) && Lasts("hours", 3600000000000)
    ensures Lasts("d", 86400000000000) && Lasts("day", 86400000000000) && Lasts("w", 604800000000000)
  {
  }

  lemma Whole(n: string, w: string, ns: nat, round: Rounding)
    requires n != "" && AllDigits(n) && Value(n) <= 60 && Sound(round) && Lasts(w, ns) && ns <= 604800000000000
    ensures Parsed(n + w, round) == Ok(Value(n) * ns)
  {
    hide Parsed, Value, Lasts;
    assert "" + n + w == n + w;
    Bound(Value(n), ns);
    WordsLast("", n, w, ns, round);
  }

  lemma Bound(v: nat, ns: nat)
    requires v <= 60 && ns <= 604800000000000
    ensures v * ns < 0x8000_0000_0000_0000
  {
    assert v * ns <= 60 * ns;
  }

  // ---- without a unit

  /** A sign or a number that stands alone is not changed by the normalisation. */
  lemma NormalisedNumber(n: string)
    requires S.IsNumber(n)
    ensures S.Normalised(n) == n
  {
    assert ' ' !in n;
    NoSpaces(n);
    S.SpacesGo(n);
    S.ChainLeads(n, "");
    S.ChainEmpty();
    assert n + "" == n;
  }

  lemma SignedIsNumber(sign: string, n: string)
    requires sign in {"-", "+"} && AllDigits(n)
    ensures S.IsNumber(sign + n) && Unsigned(sign + n) == n && !AllDigits(sign + n)
  {
    forall c | c in sign + n
      ensures c in S.BARRIERS
    {
      if c in n {
        DigitIsBarrier(c);
      }
    }
    assert !IsDigit((sign + n)[0]);
  }

  lemma NoUnit(n: string, round: Rounding)
    requires n != "" && AllDigits(n)
    ensures ParseParts(n, 0, round).None?
  {
    DigitsStop(n, "");
    assert n + "" == n;
    assert NumberOf(n).rem == "";
  }

  /** A signed number without a unit is refused, unless it is a single 0; a sign or spaces alone are refused as well,
      and the empty text is 0. */
  lemma WithoutUnit(sign: string, n: string, round: Rounding)
    requires sign in {"-", "+"} && AllDigits(n)
    ensures Parsed(sign + n, round) == if n == "0" then Ok(0) else Bad
    ensures Parsed("", round) == Ok(0) && Parsed(" ", round) == Bad
  {
    hide ParseParts, S.Normalised;
    SignedIsNumber(sign, n);
    NormalisedNumber(sign + n);
    if n != "" {
      NoUnit(n, round);
    }
    OneSpace();
    assert Value("") == 0;
  }

  lemma OneSpace()
    ensures S.Normalised(" ") == ""
  {
    S.SpacesGo(" ");
    assert " "[1..] == "";
    S.ChainEmpty();
  }

  /** Bare digits are seconds up to the largest 64-bit number, counted in nanoseconds around 2^64. */
  lemma BareDigitsWrap(n: string, round: Rounding)
    requires AllDigits(n)
    ensures var r, seconds := Parsed(n, round), if Value(n) < 0x7FFF_FFFF_FFFF_FFFF then Value(n) else 0x7FFF_FFFF_FFFF_FFFF;
            && r.Ok? && -0x8000_0000_0000_0000 <= r.v < 0x8000_0000_0000_0000
            && (r.v - 1000000000 * seconds) % 0x1_0000_0000_0000_0000 == 0
  {
    var x := 1000000000 * Atoi(n);
    assert Parsed(n, round) == Ok(Int64(x));
    Around(x);
  }

  lemma Around(x: nat)
    ensures -0x8000_0000_0000_0000 <= Int64(x) < 0x8000_0000_0000_0000
    ensures (Int64(x) - x) % 0x1_0000_0000_0000_0000 == 0
  {
    var q, r := (x + TOP) / WRAP, (x + TOP) % WRAP;
    assert x + TOP == WRAP * q + r;
    assert Int64(x) - x == WRAP * (0 - q);
  }
}
