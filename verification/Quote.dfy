/** The quoting of strings in error messages: it walks the runes of a byte string, valid UTF-8 or not, and
    is meant to escape byte by byte. */
module Quote {
  import opened Codec

  const SELF := 0x80
  const RUNE_ERROR := 0xFFFD
  const QUOTE: Byte := 34
  const BACKSLASH: Byte := 92
  const X: Byte := 120

  predicate Tail(b: int) {
    0x80 <= b < 0xC0
  }

  /** The number of bytes of the UTF-8 sequence at the head of s (RFC 3629, section 4); 0 if there is none. */
  function SequenceLength(s: Bytes): (n: nat)
    requires s != []
    ensures n <= |s| && n <= 4
    ensures s[0] < SELF <==> n == 1
    ensures n > 1 ==> forall j :: 0 <= j < n ==> s[j] >= SELF
  {
    if s[0] < SELF then 1
    else if 0xC2 <= s[0] < 0xE0 && |s| >= 2 && Tail(s[1]) then 2
    else if 0xE0 <= s[0] < 0xF0 && |s| >= 3 && Tail(s[1]) && Tail(s[2])
            && (s[0] == 0xE0 ==> s[1] >= 0xA0) && (s[0] == 0xED ==> s[1] < 0xA0) then 3
    else if 0xF0 <= s[0] < 0xF5 && |s| >= 4 && Tail(s[1]) && Tail(s[2]) && Tail(s[3])
            && (s[0] == 0xF0 ==> s[1] >= 0x90) && (s[0] == 0xF4 ==> s[1] < 0x90) then 4
    else 0
  }

  /** The rune a range loop sees at the head of s; a byte that begins no sequence is an error rune. */
  function Rune(s: Bytes): (c: nat)
    requires s != []
  {
    var n := SequenceLength(s);
    if n == 1 then s[0]
    else if n == 2 then (s[0] - 0xC0) * 0x40 + (s[1] - 0x80)
    else if n == 3 then (s[0] - 0xE0) * 0x1000 + (s[1] - 0x80) * 0x40 + (s[2] - 0x80)
    else if n == 4 then (s[0] - 0xF0) * 0x40000 + (s[1] - 0x80) * 0x1000 + (s[2] - 0x80) * 0x40 + (s[3] - 0x80)
    else RUNE_ERROR
  }

  /** How far the range loop moves. */
  function Width(s: Bytes): (n: nat)
    requires s != []
    ensures 1 <= n <= |s|
  {
    if SequenceLength(s) == 0 then 1 else SequenceLength(s)
  }

  /** len(string(c)) for a rune c that a string can hold. */
  function EncodedLength(c: nat): nat {
    if c < 0x80 then 1 else if c < 0x800 then 2 else if c < 0x10000 then 3 else 4
  }

  function Hex(n: int): Byte
    requires 0 <= n < 16
  {
    if n < 10 then 48 + n else 87 + n
  }

  function Escape(b: Byte): (r: Bytes)
    ensures r != []
  {
    if b >= SELF || b < 32 then [BACKSLASH, X, Hex(b / 16), Hex(b % 16)]
    else if b == QUOTE || b == BACKSLASH then [BACKSLASH, b]
    else [b]
  }

  /** What quoting is meant to be: every byte on its own. */
  function EscapeAll(s: Bytes): Bytes {
    if s == [] then [] else Escape(s[0]) + EscapeAll(s[1..])
  }

  lemma {:induction false} EscapeConcat(a: Bytes, b: Bytes)
    ensures EscapeAll(a + b) == EscapeAll(a) + EscapeAll(b)
    decreases |a|
  {
    if a == [] {
      assert a + b == b;
    } else {
      assert (a + b)[1..] == a[1..] + b;
      EscapeConcat(a[1..], b);
    }
  }

  /** The width the escaping uses is the width the loop moves by, also for U+FFFD, whether it was in the
      string or stands for a bad byte. */
  lemma WidthsAgree(s: Bytes)
    requires s != []
    ensures Rune(s) >= SELF <==> s[0] >= SELF
    ensures Rune(s) < SELF ==> Rune(s) == s[0] && Width(s) == 1
    ensures Rune(s) != RUNE_ERROR ==> EncodedLength(Rune(s)) == Width(s)
    ensures Rune(s) == RUNE_ERROR ==> Width(s) == if |s| >= 3 && s[..3] == [0xEF, 0xBF, 0xBD] then 3 else 1
  {
    var n := SequenceLength(s);
    if n == 3 {
      ThreeByteRune(s);
    }
  }

  lemma ThreeByteRune(s: Bytes)
    requires s != [] && SequenceLength(s) == 3
    ensures 0x800 <= Rune(s) < 0x10000
    ensures Rune(s) == RUNE_ERROR <==> s[..3] == [0xEF, 0xBF, 0xBD]
  {
  }

  /** `quote`. */
  method QuoteString(s: Bytes) returns (buf: Bytes)
    ensures buf == [QUOTE] + EscapeAll(s) + [QUOTE]
  {
    buf := [QUOTE];
    var i := 0;
    assert EscapeAll(s[..0]) == [];
    while i < |s|
      invariant i <= |s|
      invariant buf == [QUOTE] + EscapeAll(s[..i])
    {
      var width := Width(s[i..]);
      var more := QuoteRune(s, i);
      EscapeOn(s, i, i + width);
      PrependQuote(EscapeAll(s[..i]), more);
      buf := buf + more;
      i := i + width;
    }
    assert s[..i] == s;
    buf := buf + [QUOTE];
  }

  lemma PrependQuote(a: Bytes, b: Bytes)
    ensures [QUOTE] + (a + b) == [QUOTE] + a + b
  {
  }

  /** The body of the loop: what the rune at i adds. */
  method QuoteRune(s: Bytes, i: nat) returns (buf: Bytes)
    requires i < |s|
    ensures buf == EscapeAll(s[i..i + Width(s[i..])])
  {
    var c := Rune(s[i..]);
    WidthsAgree(s[i..]);
    buf := [];
    if c >= SELF || c < 32 {
      var width;
      if c == RUNE_ERROR {
        width := 1;
        if i + 2 < |s| && s[i..i + 3] == [0xEF, 0xBF, 0xBD] {
          width := 3;
        }
        assert i + 2 < |s| ==> s[i..][..3] == s[i..i + 3];
      } else {
        width := EncodedLength(c);
      }
      WideBytes(s, i);
      buf := EscapeBytes(s, i, width);
    } else {
      if c == 34 || c == 92 {
        buf := buf + [BACKSLASH];
      }
      buf := buf + [c];
      EscapeNext(s, i, i);
      assert s[i..i] == [];
    }
  }

  lemma WideBytes(s: Bytes, i: nat)
    requires i < |s|
    ensures Width(s[i..]) > 1 ==> forall k :: i <= k < i + Width(s[i..]) ==> s[k] >= SELF
  {
    var rest := s[i..];
    if Width(rest) > 1 {
      forall k | i <= k < i + Width(rest)
        ensures s[k] >= SELF
      {
        assert rest[k - i] == s[k];
      }
    }
  }

  lemma EscapeOne(b: Byte)
    ensures EscapeAll([b]) == Escape(b)
  {
    assert [b][1..] == [];
  }

  lemma EscapeNext(s: Bytes, i: nat, k: nat)
    requires i <= k < |s|
    ensures EscapeAll(s[i..k + 1]) == EscapeAll(s[i..k]) + Escape(s[k])
  {
    assert s[i..k + 1] == s[i..k] + [s[k]];
    EscapeConcat(s[i..k], [s[k]]);
    EscapeOne(s[k]);
  }

  lemma EscapeOn(s: Bytes, i: nat, k: nat)
    requires i <= k <= |s|
    ensures EscapeAll(s[..k]) == EscapeAll(s[..i]) + EscapeAll(s[i..k])
  {
    assert s[..k] == s[..i] + s[i..k];
    EscapeConcat(s[..i], s[i..k]);
  }

  /** The inner loop: width bytes from i on, each in hexadecimal. */
  method EscapeBytes(s: Bytes, i: nat, width: nat) returns (buf: Bytes)
    requires i + width <= |s| && forall k :: i <= k < i + width ==> s[k] >= SELF || s[k] < 32
    ensures buf == EscapeAll(s[i..i + width])
  {
    buf := [];
    assert s[i..i] == [];
    for j := 0 to width
      invariant buf == EscapeAll(s[i..i + j])
    {
      EscapeNext(s, i, i + j);
      buf := buf + [BACKSLASH, X];
      buf := buf + [Hex(s[i + j] / 16)];
      buf := buf + [Hex(s[i + j] % 16)];
    }
  }

  // ---- the way back

  function FromHex(b: Byte): int {
    if b < 87 then b - 48 else b - 87
  }

  function Unescape(s: Bytes): seq<int> {
    if s == [] then []
    else if s[0] != BACKSLASH || |s| == 1 then [s[0]] + Unescape(s[1..])
    else if s[1] == X && |s| >= 4 then [16 * FromHex(s[2]) + FromHex(s[3])] + Unescape(s[4..])
    else [s[1]] + Unescape(s[2..])
  }

  lemma UnescapeFirst(b: Byte, rest: Bytes)
    ensures Unescape(Escape(b) + rest) == [b] + Unescape(rest)
  {
    var e := Escape(b);
    assert (e + rest)[|e|..] == rest;
    if b >= SELF || b < 32 {
      assert 16 * (b / 16) + b % 16 == b;
      assert (e + rest)[2] == Hex(b / 16) && (e + rest)[3] == Hex(b % 16);
    }
  }

  /** In literal characters: a quotation mark and a backslash get a backslash, a newline becomes \x0a, U+00B5 becomes
      \xc2\xb5, and a letter stays. */
  lemma Literally()
    ensures EscapeAll([34]) == [92, 34] && EscapeAll([92]) == [92, 92] && EscapeAll([97]) == [97]
    ensures EscapeAll([10]) == [92, 120, 48, 97]
    ensures EscapeAll([0xC2, 0xB5]) == [92, 120, 99, 50] + [92, 120, 98, 53]
  {
    EscapeOne(34);
    EscapeOne(92);
    EscapeOne(97);
    EscapeOne(10);
    EscapeOne(0xB5);
    assert [0xC2, 0xB5][1..] == [0xB5];
  }

  /** Nothing is lost: the escaped form gives the bytes back. */
  lemma {:induction false} UnescapeRecovers(s: Bytes)
    ensures Unescape(EscapeAll(s)) == s
  {
    if s != [] {
      UnescapeFirst(s[0], EscapeAll(s[1..]));
      UnescapeRecovers(s[1..]);
      assert [s[0]] + s[1..] == s;
    }
  }

  /** Different strings are quoted differently. */
  lemma QuoteInjective(s: Bytes, t: Bytes)
    requires [QUOTE] + EscapeAll(s) + [QUOTE] == [QUOTE] + EscapeAll(t) + [QUOTE]
    ensures s == t
  {
    var a, b := EscapeAll(s), EscapeAll(t);
    assert ([QUOTE] + a + [QUOTE])[1..|a| + 1] == a && ([QUOTE] + b + [QUOTE])[1..|b| + 1] == b;
    UnescapeRecovers(s);
    UnescapeRecovers(t);
  }
}
