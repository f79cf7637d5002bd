/** The request a client sends: a 16-bit count, then each argument as a 16-bit length and its bytes, both
    little endian. The server decodes what one read of its 65536-byte buffer returned. */
module Codec {

  type Byte = x: int | 0 <= x < 256

  type Bytes = seq<Byte>

  const BUFFER := 65536

  datatype Request = Args(args: seq<Bytes>) | TooSmall | Malformed | StringShort

  /** uint16(n), little endian: the value is cut to 16 bits. */
  function Uint16(n: int): (b: Bytes)
    ensures |b| == 2
  {
    [n % 256, n / 256 % 256]
  }

  function FromUint16(b: Bytes): (n: nat)
    requires |b| == 2
    ensures n < 65536 && Uint16(n) == b
  {
    var low: int, high: int := b[0], b[1];
    DivMod(low + 256 * high, high, low);
    low + 256 * high
  }

  /** Only the low 16 bits of n are sent. */
  lemma Uint16Cut(n: int)
    ensures FromUint16(Uint16(n)) == n % 65536 && Uint16(n % 65536) == Uint16(n)
  {
    var q := n / 65536;
    var r := n % 65536;
    assert n == 65536 * q + r;
    assert r == 256 * (r / 256) + r % 256 && 0 <= r / 256 < 256;
    assert n == 256 * (256 * q + r / 256) + r % 256;
    DivMod(n, 256 * q + r / 256, r % 256);
    DivMod(n / 256, q, r / 256);
  }

  lemma DivMod(n: int, q: int, r: int)
    requires n == 256 * q + r && 0 <= r < 256
    ensures n / 256 == q && n % 256 == r
  {
  }

  function EncodeArgs(args: seq<Bytes>): Bytes {
    if args == [] then [] else Uint16(|args[0]|) + args[0] + EncodeArgs(args[1..])
  }

  function Encode(args: seq<Bytes>): Bytes {
    Uint16(|args|) + EncodeArgs(args)
  }

  /** Lists whose counts are not cut and whose encoding fits the server's buffer. */
  predicate Fits(args: seq<Bytes>) {
    Countable(args) && |Encode(args)| <= BUFFER
  }

  predicate Countable(args: seq<Bytes>) {
    |args| < 65536 && forall i :: 0 <= i < |args| ==> |args[i]| < 65536
  }

  /** What the server makes of the bytes b after a count of `left` more arguments. */
  function DecodeArgs(b: Bytes, left: nat): Request
    decreases left
  {
    if left == 0 then Args([])
    else if |b| < 2 then Malformed
    else
      var n := FromUint16(b[..2]);
      if |b| < 2 + n then StringShort
      else Prepend([b[2..2 + n]], DecodeArgs(b[2 + n..], left - 1))
  }

  function Prepend(args: seq<Bytes>, r: Request): Request {
    if r.Args? then Args(args + r.args) else r
  }

  function Decode(b: Bytes): Request {
    if |b| < 2 then TooSmall else DecodeArgs(b[2..], FromUint16(b[..2]))
  }

  // ---- what the two sides run

  /** The client's loop over its command line, whose first word is the program's own name. With no words at
      all the count is uint16(-1). */
  method Send(words: seq<Bytes>) returns (sent: Bytes)
    ensures sent == if words == [] then [255, 255] else Encode(words[1..])
  {
    var sendBuf := Uint16((|words| - 1) % 65536);
    Uint16Cut(|words| - 1);
    var sendSize := 2;
    for i := 0 to |words|
      invariant sendSize == |sendBuf|
      invariant i == 0 ==> sendBuf == Uint16(|words| - 1)
      invariant i > 0 ==> sendBuf + EncodeArgs(words[i..]) == Encode(words[1..])
    {
      if i == 0 {
        continue;
      }
      sendSize := sendSize + 2;
      sendSize := sendSize + |words[i]|;
      sendBuf := sendBuf + Uint16(|words[i]| % 65536);
      Uint16Cut(|words[i]|);
      sendBuf := sendBuf + words[i];
      assert words[i..][0] == words[i] && words[i..][1..] == words[i + 1..];
    }
    sent := sendBuf[0..sendSize];
  }

  lemma Window(buf: array<Byte>, n: nat, from: nat, end: nat)
    requires from <= end <= n <= buf.Length
    ensures buf[..n][from..end] == buf[from..end]
  {
  }

  /** The server's loop over the n bytes it received; the rest of its buffer has no influence. */
  method Receive(buf: array<Byte>, n: nat) returns (r: Request)
    requires n <= buf.Length == BUFFER
    ensures r == Decode(buf[..n])
  {
    if n < 2 {
      return TooSmall;
    }
    ghost var b := buf[..n];
    var params := FromUint16(buf[0..2]);
    Window(buf, n, 0, 2);
    var args: seq<Bytes> := [];
    var bufloc := 2;
    for i := 0 to params
      invariant 2 <= bufloc <= n
      invariant Prepend(args, DecodeArgs(b[bufloc..], params - i)) == Decode(b)
    {
      var piece := ReceiveOne(buf, n, bufloc);
      DecodeNext(b, bufloc, params - i);
      if piece.Refused? {
        return piece.why;
      }
      PrependTwice(args, [piece.arg], DecodeArgs(b[piece.next..], params - i - 1));
      args := args + [piece.arg];
      bufloc := piece.next;
    }
    return Args(args);
  }

  datatype Piece = Piece(arg: Bytes, next: nat) | Refused(why: Request)

  /** The argument at offset `at`, and the offset after it. */
  function PieceAt(b: Bytes, at: nat): (p: Piece)
    requires at <= |b|
    ensures p.Piece? ==> at <= p.next <= |b|
    ensures p.Refused? ==> !p.why.Args?
  {
    if |b| < at + 2 then Refused(Malformed)
    else
      var n := FromUint16(b[at..at + 2]);
      if |b| < at + 2 + n then Refused(StringShort) else Piece(b[at + 2..at + 2 + n], at + 2 + n)
  }

  method ReceiveOne(buf: array<Byte>, n: nat, at: nat) returns (p: Piece)
    requires at <= n <= buf.Length
    ensures p == PieceAt(buf[..n], at)
  {
    var bufloc := at;
    if n < bufloc + 2 {
      return Refused(Malformed);
    }
    Window(buf, n, bufloc, bufloc + 2);
    var argn := FromUint16(buf[bufloc..bufloc + 2]);
    bufloc := bufloc + 2;
    if n < bufloc + argn {
      return Refused(StringShort);
    }
    Window(buf, n, bufloc, bufloc + argn);
    return Piece(buf[bufloc..bufloc + argn], bufloc + argn);
  }

  /** One turn of the server's loop. */
  lemma DecodeNext(b: Bytes, at: nat, left: nat)
    requires left > 0 && at <= |b|
    ensures var p := PieceAt(b, at);
            DecodeArgs(b[at..], left) ==
            if p.Refused? then p.why else Prepend([p.arg], DecodeArgs(b[p.next..], left - 1))
  {
    var rest := b[at..];
    if |rest| >= 2 {
      assert rest[..2] == b[at..at + 2];
      var n := FromUint16(rest[..2]);
      if |rest| >= 2 + n {
        assert rest[2..2 + n] == b[at + 2..at + 2 + n];
        assert rest[2 + n..] == b[at + 2 + n..];
      }
    }
  }

  lemma PrependTwice(a: seq<Bytes>, b: seq<Bytes>, r: Request)
    ensures Prepend(a, Prepend(b, r)) == Prepend(a + b, r)
  {
    if r.Args? {
      assert a + (b + r.args) == (a + b) + r.args;
    }
  }

  // ---- the properties

  lemma DecodeFirst(a: Bytes, rest: Bytes, left: nat)
    requires |a| < 65536
    ensures DecodeArgs(Uint16(|a|) + a + rest, left + 1) == Prepend([a], DecodeArgs(rest, left))
  {
    hide Uint16, FromUint16;
    var b := Uint16(|a|) + a + rest;
    Uint16Cut(|a|);
    assert b[..2] == Uint16(|a|) && b[2..2 + |a|] == a && b[2 + |a|..] == rest;
  }

  lemma Associates(a: Bytes, b: Bytes, c: Bytes)
    ensures a + b + c == a + (b + c)
  {
  }

  lemma {:induction false} ArgsRoundTrip(args: seq<Bytes>, tail: Bytes)
    requires Countable(args)
    ensures DecodeArgs(EncodeArgs(args) + tail, |args|) == Args(args)
  {
    if args != [] {
      var a, more := args[0], args[1..];
      ArgsRoundTrip(more, tail);
      DecodeFirst(a, EncodeArgs(more) + tail, |more|);
      Associates(Uint16(|a|) + a, EncodeArgs(more), tail);
      assert [a] + more == args;
    }
  }

  /** Decoding an encoding returns the list, whatever follows it in the buffer. */
  lemma RoundTrip(args: seq<Bytes>, tail: Bytes)
    requires Countable(args)
    ensures Decode(Encode(args) + tail) == Args(args)
  {
    hide DecodeArgs, EncodeArgs, Uint16, FromUint16;
    var b := Encode(args) + tail;
    Uint16Cut(|args|);
    assert b[..2] == Uint16(|args|) && b[2..] == EncodeArgs(args) + tail;
    ArgsRoundTrip(args, tail);
  }

  lemma {:induction false} DecodedArgsArePrefix(b: Bytes, left: nat)
    requires DecodeArgs(b, left).Args? && left < 65536
    ensures var args := DecodeArgs(b, left).args; |args| == left && Countable(args) && EncodeArgs(args) <= b
    decreases left
  {
    if left > 0 {
      var n := FromUint16(b[..2]);
      var rest := b[2 + n..];
      DecodedArgsArePrefix(rest, left - 1);
      var tail := DecodeArgs(rest, left - 1).args;
      var args := DecodeArgs(b, left).args;
      assert args[0] == b[2..2 + n] && args[1..] == tail;
      assert b == Uint16(n) + b[2..2 + n] + rest;
    }
  }

  /** Whatever buffer decodes to a list begins with that list's encoding. */
  lemma DecodedIsPrefix(b: Bytes)
    requires Decode(b).Args?
    ensures Countable(Decode(b).args) && Encode(Decode(b).args) <= b
  {
    DecodedArgsArePrefix(b[2..], FromUint16(b[..2]));
    assert b == b[..2] + b[2..];
  }

  /** A request cut short is refused, never read as another list. */
  lemma StrictPrefixRefused(args: seq<Bytes>, b: Bytes)
    requires Countable(args) && b < Encode(args)
    ensures !Decode(b).Args?
  {
    if Decode(b).Args? {
      var other := Decode(b).args;
      DecodedIsPrefix(b);
      var tail := Encode(args)[|Encode(other)|..];
      assert Encode(args) == Encode(other) + tail;
      assert Encode(args) + [] == Encode(args);
      RoundTrip(args, []);
      RoundTrip(other, tail);
    }
  }

  // ---- where everything stands

  /** Where the k-th argument's length starts, counted from behind the count; for k == |args| the end of all. */
  function Offset(args: seq<Bytes>, k: nat): (n: nat)
    requires k <= |args|
  {
    if k == 0 then 0 else 2 + |args[0]| + Offset(args[1..], k - 1)
  }

  lemma {:induction false} EncodeSplit(args: seq<Bytes>, k: nat)
    requires k <= |args|
    ensures EncodeArgs(args) == EncodeArgs(args[..k]) + EncodeArgs(args[k..])
    ensures |EncodeArgs(args[..k])| == Offset(args, k)
    decreases k
  {
    hide Uint16;
    if k == 0 {
      assert args[..0] == [] && args[0..] == args;
    } else {
      EncodeSplit(args[1..], k - 1);
      assert args[..k][1..] == args[1..][..k - 1] && args[1..][k - 1..] == args[k..];
    }
  }

  /** The two bytes at o are n, low byte first. */
  predicate Says(b: Bytes, o: nat, n: nat)
    requires o + 2 <= |b|
  {
    var low: int, high: int := b[o], b[o + 1];
    n == low + 256 * high
  }

  lemma LowHigh(n: nat)
    requires n < 65536
    ensures Says(Uint16(n), 0, n)
  {
  }

  /** The bytes on the wire: the count, then for each argument its length and itself. */
  lemma LaidOut(args: seq<Bytes>, k: nat)
    requires Countable(args) && k < |args|
    ensures var b, o := Encode(args), 2 + Offset(args, k);
            && |b| == 2 + Offset(args, |args|) >= o + 2 + |args[k]|
            && Says(b, 0, |args|) && Says(b, o, |args[k]|) && b[o + 2..o + 2 + |args[k]|] == args[k]
  {
    hide Uint16, Says, EncodeArgs, Offset;
    EncodeSplit(args, k);
    EncodeSplit(args, |args|);
    assert args[..|args|] == args;
    EncodeNext(args, k);
    LowHigh(|args|);
    LowHigh(|args[k]|);
    Inside(Uint16(|args|), EncodeArgs(args[..k]), Uint16(|args[k]|), args[k], EncodeArgs(args[k..][1..]), |args|, |args[k]|);
  }

  lemma EncodeNext(args: seq<Bytes>, k: nat)
    requires k < |args|
    ensures EncodeArgs(args[k..]) == Uint16(|args[k]|) + args[k] + EncodeArgs(args[k..][1..])
  {
    hide Uint16;
  }

  lemma Inside(count: Bytes, before: Bytes, length: Bytes, a: Bytes, after: Bytes, n: nat, m: nat)
    requires |count| == 2 == |length| && Says(count, 0, n) && Says(length, 0, m)
    ensures var b, o := count + (before + (length + a + after)), 2 + |before|;
            && |b| >= o + 2 + |a| && Says(b, 0, n) && Says(b, o, m) && b[o + 2..o + 2 + |a|] == a
  {
    var b, o := count + (before + (length + a + after)), 2 + |before|;
    assert b[0] == count[0] && b[1] == count[1] && b[o] == length[0] && b[o + 1] == length[1];
  }

  lemma {:induction false} ArgsCut(args: seq<Bytes>, b: Bytes, k: nat)
    requires Countable(args) && b <= EncodeArgs(args) && k < |args|
    requires Offset(args, k) <= |b| < Offset(args, k + 1)
    ensures DecodeArgs(b, |args|) == if |b| < Offset(args, k) + 2 then Malformed else StringShort
  {
    hide Uint16, FromUint16;
    var a, more := args[0], args[1..];
    var rest := EncodeArgs(more);
    assert Offset(more, 0) == 0;
    Uint16Cut(|a|);
    if |b| >= 2 {
      assert b[..2] == Uint16(|a|);
    }
    if k > 0 {
      var m := 2 + |a|;
      assert m <= |b|;
      assert b[m..] <= rest;
      ArgsCut(more, b[m..], k - 1);
    }
  }

  /** A request cut inside argument k: too little for its length is malformed, too little for its bytes is a short
      string; less than a count is too small. */
  lemma CutSaysWhy(args: seq<Bytes>, b: Bytes, k: nat)
    requires Countable(args) && b < Encode(args) && k < |args|
    ensures |b| < 2 ==> Decode(b) == TooSmall
    ensures 2 + Offset(args, k) <= |b| < 2 + Offset(args, k + 1) ==>
              Decode(b) == if |b| < 2 + Offset(args, k) + 2 then Malformed else StringShort
  {
    hide DecodeArgs, EncodeArgs, Uint16, FromUint16, Offset;
    Uint16Cut(|args|);
    if 2 + Offset(args, k) <= |b| < 2 + Offset(args, k + 1) {
      assert b[..2] == Uint16(|args|) && b[2..] <= EncodeArgs(args);
      ArgsCut(args, b[2..], k);
    }
  }

  /** What the server decodes when the request arrives in one read. */
  function Transfer(args: seq<Bytes>): Request {
    var sent := Encode(args);
    Decode(if |sent| <= BUFFER then sent else sent[..BUFFER])
  }

  /** A list reaches the server unchanged exactly when it fits. */
  lemma TransferIff(args: seq<Bytes>)
    ensures Transfer(args) == Args(args) <==> Fits(args)
  {
    if Fits(args) {
      RoundTrip(args, []);
      assert Encode(args) + [] == Encode(args);
    }
    if Transfer(args) == Args(args) {
      var sent := Encode(args);
      DecodedIsPrefix(if |sent| <= BUFFER then sent else sent[..BUFFER]);
    }
  }
}
