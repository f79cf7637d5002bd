/** How an answer travels back: the server writes the command's output and a zero byte, waits for the client's
    acknowledgement, then sends a five-byte signature and a 16-bit exit code. The output may be written and
    read in pieces of any size; which side moves next, and by how much, is the schedule. */
module Handshake {
  import opened Codec

  const MAGIC: Bytes := [0x00, 0xFF, 0x55, 0xAA, 0x00]

  datatype Status = Reading | Exited(code: nat) | Died

  datatype ClientView = ClientView(isEnd: bool, printed: Bytes, acked: nat, status: Status)

  predicate EndsWithZero(chunk: Bytes) {
    chunk != [] && chunk[|chunk| - 1] == 0
  }

  /** What the client does with one read. */
  function Handle(c: ClientView, chunk: Bytes): ClientView {
    if !c.isEnd && EndsWithZero(chunk) then
      c.(printed := c.printed + chunk[..|chunk| - 1], acked := c.acked + 1, isEnd := true)
    else if c.isEnd then
      if 5 <= |chunk| <= 7 && chunk[..5] == MAGIC then c.(status := Exited(FromUint16(chunk[|chunk| - 2..])))
      else c.(status := Died)
    else c.(printed := c.printed + chunk)
  }

  /** The client as it runs: one call of `Turn` for each read, until it exits. */
  class Client {
    var isEnd: bool
    var printed: Bytes
    var acked: nat
    var status: Status

    constructor ()
      ensures View() == Start([]).client
    {
      isEnd, printed, acked, status := false, [], 0, Reading;
    }

    function View(): ClientView
      reads this
    {
      ClientView(isEnd, printed, acked, status)
    }

    method Turn(recvBuf: array<Byte>, recvSize: nat)
      requires recvSize <= recvBuf.Length && status == Reading
      modifies this
      ensures View() == Handle(old(View()), recvBuf[..recvSize])
    {
      hide FromUint16;
      if !isEnd && recvSize >= 1 && recvBuf[recvSize - 1] == 0 {
        assert recvBuf[..recvSize][..recvSize - 1] == recvBuf[..recvSize - 1];
        if recvSize > 1 {
          printed := printed + recvBuf[0..recvSize - 1];
        }
        acked := acked + 1;
        isEnd := true;
        return;
      }
      if isEnd {
        assert 5 <= recvSize ==> recvBuf[..recvSize][..5] == recvBuf[0..5];
        if 5 <= recvSize <= 7 && recvBuf[0..5] == MAGIC {
          assert recvBuf[..recvSize][recvSize - 2..] == recvBuf[recvSize - 2..recvSize];
          status := Exited(FromUint16(recvBuf[recvSize - 2..recvSize]));
          return;
        }
        status := Died;
        return;
      }
      printed := printed + recvBuf[0..recvSize];
    }
  }

  /** The server still has to write `left`, or waits for the acknowledgement, or is about to send the code. */
  datatype Server = Answering(left: Bytes) | AwaitingAck | Coding | Finished

  /** `wire` holds what the server wrote and the client has not read; `acks` what flows the other way. */
  datatype State = State(server: Server, client: ClientView, wire: Bytes, acks: nat)

  datatype Action = Write(k: nat) | TakeAck | SendCode | Read(k: nat)

  function Start(output: Bytes): State {
    State(Answering(output + [0]), ClientView(false, [], 0, Reading), [], 0)
  }

  /** A read returns at least one byte and at most what is there and fits the buffer; the seven bytes of the
      code, sent by one write, arrive in one read. */
  predicate Enabled(s: State, a: Action) {
    match a
    case Write(k) => s.server.Answering? && 1 <= k <= |s.server.left|
    case TakeAck => s.server.AwaitingAck? && s.acks > 0
    case SendCode => s.server.Coding?
    case Read(k) =>
      && s.client.status == Reading
      && 1 <= k <= |s.wire|
      && k <= BUFFER
      && (s.client.isEnd && s.server.Finished? ==> k == |s.wire|)
  }

  function Do(s: State, a: Action, code: int): State
    requires Enabled(s, a)
  {
    match a
    case Write(k) =>
      var left := s.server.left[k..];
      s.(wire := s.wire + s.server.left[..k], server := if left == [] then AwaitingAck else Answering(left))
    case TakeAck => s.(server := Coding, acks := 0)
    case SendCode => s.(server := Finished, wire := s.wire + MAGIC + Uint16(code))
    case Read(k) =>
      var client := Handle(s.client, s.wire[..k]);
      s.(client := client, wire := s.wire[k..], acks := s.acks + client.acked - s.client.acked)
  }

  predicate Legal(s: State, schedule: seq<Action>, code: int)
    decreases |schedule|
  {
    schedule == [] || (Enabled(s, schedule[0]) && Legal(Do(s, schedule[0], code), schedule[1..], code))
  }

  function Run(s: State, schedule: seq<Action>, code: int): State
    requires Legal(s, schedule, code)
    decreases |schedule|
  {
    if schedule == [] then s else Run(Do(s, schedule[0], code), schedule[1..], code)
  }

  // ---- output without a zero byte

  predicate AtOutput(s: State) {
    s.client == ClientView(false, s.client.printed, 0, Reading) && s.acks == 0
  }

  predicate AtCode(s: State, output: Bytes, status: Status) {
    s.client == ClientView(true, output, 1, status)
  }

  /** What every step keeps. */
  predicate Invariant(s: State, output: Bytes, code: int) {
    match s.server
    case Answering(left) => left != [] && AtOutput(s) && s.client.printed + s.wire + left == output + [0]
    case AwaitingAck =>
      || (AtOutput(s) && s.wire != [] && s.client.printed + s.wire == output + [0])
      || (AtCode(s, output, Reading) && s.wire == [] && s.acks == 1)
    case Coding => AtCode(s, output, Reading) && s.wire == [] && s.acks == 0
    case Finished =>
      && s.acks == 0
      && ((AtCode(s, output, Reading) && s.wire == MAGIC + Uint16(code)) ||
          (AtCode(s, output, Exited(code % 65536)) && s.wire == []))
  }

  lemma ReadOutput(s: State, output: Bytes, k: nat, left: Bytes)
    requires 0 !in output && AtOutput(s) && 1 <= k <= |s.wire|
    requires s.client.printed + s.wire + left == output + [0]
    ensures var chunk := s.wire[..k];
            var rest := s.wire[k..] + left;
            && EndsWithZero(chunk) == (rest == [])
            && (rest == [] ==> s.client.printed + chunk[..k - 1] == output)
            && (s.client.printed + chunk) + s.wire[k..] + left == output + [0]
  {
    var all := s.client.printed + s.wire + left;
    var at := |s.client.printed| + k - 1;
    assert all[at] == s.wire[k - 1];
    assert all[at] == if at < |output| then output[at] else 0;
    if s.wire[k..] + left == [] {
      assert all[..|output|] == output;
      assert all[..|output|] == s.client.printed + s.wire[..k - 1];
      assert s.wire[..k][..k - 1] == s.wire[..k - 1];
    }
  }

  lemma ReadCode(s: State, output: Bytes, code: int)
    requires AtCode(s, output, Reading) && s.wire == MAGIC + Uint16(code)
    ensures Handle(s.client, s.wire) == s.client.(status := Exited(code % 65536))
  {
    assert s.wire[..5] == MAGIC && s.wire[5..] == Uint16(code);
    Uint16Cut(code);
  }

  lemma StepKeeps(s: State, output: Bytes, code: int, a: Action)
    requires 0 !in output && Invariant(s, output, code) && Enabled(s, a)
    ensures Invariant(Do(s, a, code), output, code)
  {
    match a {
      case Write(k) =>
        var left := s.server.left;
        assert left == left[..k] + left[k..];
        assert s.client.printed + (s.wire + left[..k]) + left[k..] == output + [0];
      case TakeAck =>
      case SendCode =>
        assert [] + MAGIC == MAGIC;
      case Read(k) =>
        if s.server.Finished? {
          assert s.wire[..k] == s.wire;
          ReadCode(s, output, code);
        } else {
          ReadOutput(s, output, k, if s.server.Answering? then s.server.left else []);
        }
    }
  }

  /** What is left to do; every step lowers it. */
  function Measure(s: State): nat {
    (if s.server.Answering? then 3 * |s.server.left| else 0) + 2 * |s.wire| + s.acks +
    (if s.server.Finished? then 0 else 15)
  }

  lemma StepLowers(s: State, output: Bytes, code: int, a: Action)
    requires 0 !in output && Invariant(s, output, code) && Enabled(s, a)
    ensures Measure(Do(s, a, code)) < Measure(s)
  {
    StepKeeps(s, output, code, a);
  }

  lemma {:induction false} RunKeeps(s: State, output: Bytes, code: int, schedule: seq<Action>)
    requires 0 !in output && Invariant(s, output, code) && Legal(s, schedule, code)
    ensures Invariant(Run(s, schedule, code), output, code)
    ensures |schedule| + Measure(Run(s, schedule, code)) <= Measure(s)
    decreases |schedule|
  {
    if schedule != [] {
      StepKeeps(s, output, code, schedule[0]);
      StepLowers(s, output, code, schedule[0]);
      RunKeeps(Do(s, schedule[0], code), output, code, schedule[1..]);
    }
  }

  /** Somebody can move unless the client has exited. */
  lemma NeverBothWait(s: State, output: Bytes, code: int)
    requires Invariant(s, output, code)
    ensures s.client.status.Reading? ==>
              exists a :: Enabled(s, a)
    ensures s.client.status.Exited? ==> forall a :: !Enabled(s, a)
  {
    if s.client.status.Reading? {
      match s.server {
        case Answering(left) => assert Enabled(s, Write(1));
        case AwaitingAck =>
          if AtOutput(s) {
            assert Enabled(s, Read(1));
          } else {
            assert Enabled(s, TakeAck);
          }
        case Coding => assert Enabled(s, SendCode);
        case Finished => assert Enabled(s, Read(|s.wire|));
      }
    }
  }

  /** The client never dies, prints nothing but a prefix of the output and acknowledges at most once; when it
      exits it has printed all of it, has acknowledged, and returns the code's low 16 bits. */
  predicate Fine(s: State, output: Bytes, code: int) {
    && !s.client.status.Died?
    && s.client.printed <= output
    && s.client.acked <= 1
    && (s.client.status.Exited? ==>
          s.client.printed == output && s.client.acked == 1 && s.client.status.code == code % 65536)
  }

  /** For an output without a zero byte, on every schedule: all is fine at every point, the two sides never
      both wait, and after a bounded number of steps the client has exited. */
  lemma EveryScheduleAnswers(output: Bytes, code: int, schedule: seq<Action>)
    requires 0 !in output && Legal(Start(output), schedule, code)
    ensures var s := Run(Start(output), schedule, code);
            && Fine(s, output, code)
            && (s.client.status.Exited? <==> forall a :: !Enabled(s, a))
            && |schedule| <= 3 * |output| + 18
  {
    assert [] + [] + (output + [0]) == output + [0];
    RunKeeps(Start(output), output, code, schedule);
    var s := Run(Start(output), schedule, code);
    NeverBothWait(s, output, code);
    if AtOutput(s) {
      var rest := s.wire + if s.server.Answering? then s.server.left else [];
      assert s.client.printed + rest == output + [0];
      assert |s.client.printed| <= |output|;
      assert (output + [0])[..|s.client.printed|] == s.client.printed;
    }
  }

  /** What is on the wire at every point of every schedule: first the output and its zero byte, as far as they are
      written and not yet read, then nothing, then five literal bytes and the code, low byte first, until they are
      read. */
  lemma WireExact(output: Bytes, code: int, schedule: seq<Action>)
    requires 0 !in output && Legal(Start(output), schedule, code)
    ensures var s := Run(Start(output), schedule, code);
            match s.server
            case Answering(left) => s.client.printed + s.wire + left == output + [0]
            case AwaitingAck => s.wire == [] || s.client.printed + s.wire == output + [0]
            case Coding => s.wire == []
            case Finished =>
              if s.client.status.Reading? then s.wire == [0, 255, 85, 170, 0, code % 256, code / 256 % 256]
              else s.wire == []
  {
    assert [] + [] + (output + [0]) == output + [0];
    RunKeeps(Start(output), output, code, schedule);
    assert MAGIC + Uint16(code) == [0, 255, 85, 170, 0, code % 256, code / 256 % 256];
  }

  /** What the client makes of any read, sound or not. Before the end a chunk that ends in a zero byte ends the output
      and is acknowledged, and any other is printed; after it the client exits just on five to seven bytes that begin
      with the signature, with the number in the last two of them, and dies on everything else. */
  lemma ReadsAnything(c: ClientView, chunk: Bytes)
    requires chunk != []
    ensures var c', n := Handle(c, chunk), |chunk|;
            if !c.isEnd then
              && c'.isEnd == (chunk[n - 1] == 0) && c'.status == c.status
              && c'.acked == c.acked + (if chunk[n - 1] == 0 then 1 else 0)
              && c'.printed == c.printed + if chunk[n - 1] == 0 then chunk[..n - 1] else chunk
            else
              && c'.isEnd && c'.printed == c.printed && c'.acked == c.acked
              && (c'.status.Exited? || c'.status == Died)
              && (c'.status.Exited? <==> n in {5, 6, 7} && chunk[..5] == [0, 255, 85, 170, 0])
              && (c'.status.Exited? ==> Says(chunk, n - 2, c'.status.code))
  {
    if c.isEnd && 5 <= |chunk| <= 7 {
      LowHigh(FromUint16(chunk[|chunk| - 2..]));
    }
  }

  // ---- output with a zero byte

  /** The pieces may then be cut so that the client takes the zero for the end, and dies at the next one. */
  lemma {:induction false} ZeroCanKill(s: State, left: Bytes, code: int) returns (schedule: seq<Action>)
    requires s.server == Answering(left) && s.wire == [] && AtOutput(s)
    requires left != [] && 0 in left[..|left| - 1]
    ensures Legal(s, schedule, code) && Run(s, schedule, code).client.status == Died
    decreases |left|
  {
    var s1 := Do(s, Write(1), code);
    assert s1.wire == left[..1] && s1.server == Answering(left[1..]);
    assert Enabled(s1, Read(1));
    var s2 := Do(s1, Read(1), code);
    assert s2.wire == [];
    var rest;
    if left[0] == 0 {
      rest := DiesAtNextByte(s2, left[1..], code);
    } else {
      rest := ZeroCanKill(s2, left[1..], code);
    }
    schedule := [Write(1), Read(1)] + rest;
    TwoSteps(s, Write(1), Read(1), rest, code);
  }

  lemma DiesAtNextByte(s: State, left: Bytes, code: int) returns (schedule: seq<Action>)
    requires s.server == Answering(left) && left != [] && s.wire == []
    requires s.client.isEnd && s.client.status == Reading
    ensures Legal(s, schedule, code) && Run(s, schedule, code).client.status == Died
  {
    var s1 := Do(s, Write(1), code);
    assert s1.wire == left[..1];
    assert Enabled(s1, Read(1));
    TwoSteps(s, Write(1), Read(1), [], code);
    schedule := [Write(1), Read(1)] + [];
  }

  lemma TwoSteps(s: State, a: Action, b: Action, rest: seq<Action>, code: int)
    requires Enabled(s, a) && Enabled(Do(s, a, code), b) && Legal(Do(Do(s, a, code), b, code), rest, code)
    ensures Legal(s, [a, b] + rest, code)
    ensures Run(s, [a, b] + rest, code) == Run(Do(Do(s, a, code), b, code), rest, code)
  {
    assert ([a, b] + rest)[1..] == [b] + rest;
    assert ([b] + rest)[1..] == rest;
  }

  /** The handshake answers correctly on every schedule exactly when the output has no zero byte. */
  lemma AnswersIff(output: Bytes, code: int)
    ensures (forall schedule :: Legal(Start(output), schedule, code) ==>
               Fine(Run(Start(output), schedule, code), output, code))
            <==> 0 !in output
  {
    if 0 in output {
      assert (output + [0])[..|output|] == output;
      var schedule := ZeroCanKill(Start(output), output + [0], code);
    } else {
      forall schedule | Legal(Start(output), schedule, code)
        ensures Fine(Run(Start(output), schedule, code), output, code)
      {
        EveryScheduleAnswers(output, code, schedule);
      }
    }
  }
}
