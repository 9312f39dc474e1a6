/** The bridge's client: header functions, request builders and the event-driven response reader (bridge/nervfsClient.js). */
module Bridge {
  import opened Bytes
  import opened Protocol
  import opened Payloads

  // ---------------------------------------------------------------- headers

  /** `buildHeader`: `writeUInt16BE` and `writeUInt32BE` throw on a value that does not fit. */
  function BuildHeader(opcode: nat, payloadLen: nat): Option<seq<byte>> {
    if opcode >= TWO_16 || payloadLen >= TWO_32 then None
    else
      Some([MAGIC, VERSION]
           + [opcode / 0x100, opcode % 0x100]
           + [payloadLen / 0x100_0000, payloadLen / 0x1_0000 % 0x100, payloadLen / 0x100 % 0x100, payloadLen % 0x100]
           + [0, 0, 0, 0, 0, 0, 0, 0])
  }

  /** `readUInt16BE`, digit by digit. */
  function ReadUInt16(buf: seq<byte>, at: nat): u16
    requires at + 2 <= |buf|
  {
    var hi: int, lo: int := buf[at], buf[at + 1];
    hi * 0x100 + lo
  }

  /** `readUInt32BE`: four weighted digits. */
  function ReadUInt32(buf: seq<byte>, at: nat): u32
    requires at + 4 <= |buf|
  {
    var a: int, b: int, c: int, d: int := buf[at], buf[at + 1], buf[at + 2], buf[at + 3];
    a * 0x100_0000 + b * 0x1_0000 + c * 0x100 + d
  }

  /** `readBigUInt64BE`: two 32-bit halves, the first one shifted. */
  function ReadBigUInt64(buf: seq<byte>, at: nat): u64
    requires at + 8 <= |buf|
  {
    var hi: int, lo: int := ReadUInt32(buf, at), ReadUInt32(buf, at + 4);
    hi * TWO_32 + lo
  }

  /** The digit-wise readers read what the C readers read from the same bytes. */
  lemma ReadersAgree16(buf: seq<byte>, at: nat)
    requires at + 2 <= |buf|
    ensures ReadUInt16(buf, at) == Read16(buf[at..at + 2])
  {
    Digits16(Read16(buf[at..at + 2]));
    assert buf[at..at + 2] == [buf[at], buf[at + 1]];
  }

  lemma ReadersAgree32(buf: seq<byte>, at: nat)
    requires at + 4 <= |buf|
    ensures ReadUInt32(buf, at) == Read32(buf[at..at + 4])
  {
    ShiftedIsValue(buf[at..at + 4]);
  }

  lemma ReadersAgree64(buf: seq<byte>, at: nat)
    requires at + 8 <= |buf|
    ensures ReadBigUInt64(buf, at) == Read64(buf[at..at + 8])
  {
    var s := buf[at..at + 8];
    ReadersAgree32(buf, at);
    ReadersAgree32(buf, at + 4);
    assert s[..4] == buf[at..at + 4] && s[4..] == buf[at + 4..at + 8];
    ValueOfHalves(s);
  }

  /** `parseHeader`: both tests in one condition; throwing is `None`. */
  function ParseJs(buf: seq<byte>): Option<Header> {
    if |buf| < HEADER_SIZE then None
    else
      var h := Header(buf[0], buf[1], ReadUInt16(buf, 2), ReadUInt32(buf, 4), ReadBigUInt64(buf, 8));
      if h.magic != MAGIC || h.version != VERSION then None else Some(h)
  }

  lemma Digits16(v: nat)
    requires v < TWO_16
    ensures Big(2, v) == [v / 0x100, v % 0x100]
  {
    assert Big(1, v / 0x100) == Big(0, v / 0x100 / 0x100) + [v / 0x100 % 0x100];
  }

  lemma Digits32(v: nat)
    requires v < TWO_32
    ensures Big(4, v) == [v / 0x100_0000, v / 0x1_0000 % 0x100, v / 0x100 % 0x100, v % 0x100]
  {
    var a, b, c := v / 0x100, v / 0x1_0000, v / 0x100_0000;
    assert a / 0x100 == b && b / 0x100 == c;
    assert Big(4, v) == Big(3, a) + [v % 0x100];
    assert Big(3, a) == Big(2, b) + [a % 0x100];
    assert Big(2, b) == Big(1, c) + [b % 0x100];
    assert Big(1, c) == Big(0, c / 0x100) + [c % 0x100];
  }

  /** The bridge's header builder prints what `serialize_header` prints, or throws. */
  lemma BuildersAgree(opcode: nat, payloadLen: nat)
    ensures BuildHeader(opcode, payloadLen) ==
            if opcode < TWO_16 && payloadLen < TWO_32
            then Some(SerializeHeader(Header(MAGIC, VERSION, opcode, payloadLen, 0)))
            else None
  {
    if opcode < TWO_16 && payloadLen < TWO_32 {
      Digits16(opcode);
      Digits32(payloadLen);
      assert Big(8, 0) == [0, 0, 0, 0, 0, 0, 0, 0] by {
        assert Big(4, 0) == [0, 0, 0, 0] by { Digits32(0); }
        assert Big(5, 0) == Big(4, 0) + [0];
        assert Big(6, 0) == Big(5, 0) + [0];
        assert Big(7, 0) == Big(6, 0) + [0];
      }
    }
  }

  /** The two header parsers accept the same headers and read the same fields. */
  lemma ParsersAgree(buf: seq<byte>)
    requires |buf| >= HEADER_SIZE
    ensures ParseJs(buf) == ParseHeader(buf)
  {
    ReadersAgree16(buf, 2);
    ReadersAgree32(buf, 4);
    ReadersAgree64(buf, 8);
  }

  // ---------------------------------------------------------------- readResponse

  function Concat(chunks: seq<seq<byte>>): (s: seq<byte>) {
    if chunks == [] then [] else Concat(chunks[..|chunks| - 1]) + chunks[|chunks| - 1]
  }

  /** What the bytes of a stream amount to so far. */
  datatype Verdict = Short | Bad | Complete(header: Header, body: seq<byte>)

  function Judge(s: seq<byte>): Verdict {
    if |s| < HEADER_SIZE then Short
    else
      match ParseHeader(s)
      case None => Bad
      case Some(h) =>
        if |s| < HEADER_SIZE + h.payloadLen then Short
        else Complete(h, s[HEADER_SIZE..HEADER_SIZE + h.payloadLen])
  }

  /** A stream holds a whole message exactly when it starts with its printed header and its body. */
  lemma JudgeIsCanonical(s: seq<byte>, h: Header, body: seq<byte>)
    ensures Judge(s) == Complete(h, body) <==>
            h.magic == 0xAE && h.version == 1 && |body| == h.payloadLen && SerializeHeader(h) + body <= s
  {
    if Judge(s) == Complete(h, body) {
      HeaderCanonical(s);
      assert s[..HEADER_SIZE + h.payloadLen] == s[..HEADER_SIZE] + s[HEADER_SIZE..HEADER_SIZE + h.payloadLen];
    } else if h.magic == 0xAE && h.version == 1 && |body| == h.payloadLen && SerializeHeader(h) + body <= s {
      var rest := s[HEADER_SIZE + |body|..];
      assert s == SerializeHeader(h) + (body + rest);
      HeaderRoundTrip(h, body + rest);
    }
  }

  /** It is bad exactly when a whole header begins with the wrong two bytes. */
  lemma BadIsCanonical(s: seq<byte>)
    ensures Judge(s) == Bad <==> |s| >= 16 && (s[0] != 0xAE || s[1] != 1)
  {
  }

  /** A verdict never changes when more bytes arrive. */
  lemma JudgeIsFinal(s: seq<byte>, more: seq<byte>)
    requires Judge(s) != Short
    ensures Judge(s + more) == Judge(s)
  {
    var t := s + more;
    assert t[2..4] == s[2..4] && t[4..8] == s[4..8] && t[8..16] == s[8..16];
    if Judge(s).Complete? {
      var e := HEADER_SIZE + ParseHeader(s).value.payloadLen;
      assert t[HEADER_SIZE..e] == s[HEADER_SIZE..e];
    }
  }

  /** The promise `readResponse` returns. */
  datatype Outcome = Pending | Resolved(header: Header, body: seq<byte>) | Rejected

  function Decided(v: Verdict): Outcome {
    match v
    case Short => Pending
    case Bad => Rejected
    case Complete(h, body) => Resolved(h, body)
  }

  datatype SocketEvent = Data(chunk: seq<byte>) | Error | End | Close

  /** The closure variables of `readResponse`, and the promise they settle. */
  class ResponseReader {
    var chunks: seq<seq<byte>>
    var total: nat
    var expected: nat
    var header: Option<Header>
    var outcome: Outcome

    ghost predicate Valid()
      reads this
    {
      var s := Concat(chunks);
      && total == |s|
      && (outcome.Pending? ==>
            && total < expected
            && Judge(s) == Short
            && expected == HEADER_SIZE + (if header.Some? then header.value.payloadLen else 0)
            && (header.Some? <==> total >= HEADER_SIZE)
            && (header.Some? ==> ParseHeader(s) == header))
    }

    constructor ()
      ensures Valid() && outcome == Pending && chunks == []
    {
      chunks, total, expected, header, outcome := [], 0, HEADER_SIZE, None, Pending;
    }

    /** `onData`: the chunk is kept, and `tryResolve` runs. Once settled there is no listener any more. */
    method OnData(chunk: seq<byte>)
      requires Valid()
      modifies this
      ensures Valid()
      ensures old(outcome) != Pending ==> outcome == old(outcome) && chunks == old(chunks)
      ensures old(outcome) == Pending ==>
                Concat(chunks) == old(Concat(chunks)) + chunk && outcome == Decided(Judge(Concat(chunks)))
    {
      if outcome != Pending {
        return;
      }
      ghost var before := Concat(chunks);
      assert (chunks + [chunk])[..|chunks|] == chunks;
      chunks := chunks + [chunk];
      total := total + |chunk|;
      TryResolve(before);
    }

    method TryResolve(ghost before: seq<byte>)
      requires outcome == Pending && total == |Concat(chunks)|
      requires before <= Concat(chunks) && |before| < expected && Judge(before) == Short
      requires expected == HEADER_SIZE + (if header.Some? then header.value.payloadLen else 0)
      requires header.Some? <==> |before| >= HEADER_SIZE
      requires header.Some? ==> ParseHeader(before) == header
      modifies `expected, `header, `outcome
      ensures Valid() && outcome == Decided(Judge(Concat(chunks)))
    {
      var data := Concat(chunks);
      SameHeader(before, data);
      if total < expected {
        return;
      }
      if header == None {
        ParsersAgree(data[..HEADER_SIZE]);
        SameHeader(data[..HEADER_SIZE], data);
        header := ParseJs(data[..HEADER_SIZE]);
        if header == None {
          outcome := Rejected;
          return;
        }
        expected := HEADER_SIZE + header.value.payloadLen;
        if total < expected {
          return;
        }
      }
      outcome := Resolved(header.value, data[HEADER_SIZE..expected]);
    }

    /** `onError`, `onEnd` and `onClose`. */
    method OnOther(e: SocketEvent)
      requires Valid() && !e.Data?
      modifies this
      ensures Valid() && chunks == old(chunks)
      ensures outcome == if old(outcome) == Pending then Rejected else old(outcome)
    {
      if outcome != Pending {
        return;
      }
      if e.Error? || total < expected {
        outcome := Rejected;
      }
    }
  }

  lemma SameHeader(s: seq<byte>, t: seq<byte>)
    requires s <= t
    ensures |s| >= HEADER_SIZE ==> ParseHeader(t) == ParseHeader(s)
  {
    if |s| >= HEADER_SIZE {
      assert t[2..4] == s[2..4] && t[4..8] == s[4..8] && t[8..16] == s[8..16];
    }
  }

  // ---------------------------------------------------------------- any run of events

  /** The bytes that arrive before the first event that is not data. */
  function Arrived(events: seq<SocketEvent>): seq<byte> {
    if events == [] || !events[0].Data? then [] else events[0].chunk + Arrived(events[1..])
  }

  /** Does the stream end, one way or another? */
  predicate Ends(events: seq<SocketEvent>) {
    exists i :: 0 <= i < |events| && !events[i].Data?
  }

  /** How the promise ends up: it depends on the bytes and on whether the stream ends, not on the cuts. */
  function Settlement(s: seq<byte>, ends: bool): Outcome {
    var o := Decided(Judge(s));
    if o == Pending && ends then Rejected else o
  }

  lemma EndsAppend(events: seq<SocketEvent>, e: SocketEvent)
    ensures Ends(events + [e]) <==> Ends(events) || !e.Data?
  {
    var longer := events + [e];
    assert longer[|events|] == e;
    if Ends(events) {
      var i :| 0 <= i < |events| && !events[i].Data?;
      assert !longer[i].Data?;
    }
  }

  lemma {:induction false} ArrivedAppend(events: seq<SocketEvent>, e: SocketEvent)
    ensures Arrived(events + [e]) ==
            if Ends(events) || !e.Data? then Arrived(events) else Arrived(events) + e.chunk
  {
    var longer := events + [e];
    if events == [] {
      assert longer[1..] == [];
    } else {
      var tail := events[1..];
      assert longer[0] == events[0] && longer[1..] == tail + [e];
      if events[0].Data? {
        ArrivedAppend(tail, e);
        EndsLater(events);
        if e.Data? {
          assert events[0].chunk + (Arrived(tail) + e.chunk) == Arrived(events) + e.chunk;
        }
      }
    }
  }

  lemma EndsLater(events: seq<SocketEvent>)
    requires events != [] && events[0].Data?
    ensures Ends(events) <==> Ends(events[1..])
  {
    if Ends(events) {
      var i :| 0 <= i < |events| && !events[i].Data?;
      assert !events[1..][i - 1].Data?;
    }
  }

  /** More bytes after a settled stream, or its end, change nothing. */
  lemma SettledStays(s: seq<byte>, ends: bool, more: seq<byte>)
    requires Settlement(s, ends) != Pending
    ensures !ends ==> Settlement(s + more, false) == Settlement(s, false)
    ensures Settlement(s, true) == Settlement(s, ends)
  {
    if !ends {
      JudgeIsFinal(s, more);
    }
  }

  /** What a sequence of events settles the promise to. */
  function Final(events: seq<SocketEvent>): Outcome {
    Settlement(Arrived(events), Ends(events))
  }

  lemma OneMoreEvent(events: seq<SocketEvent>, e: SocketEvent)
    ensures Final(events) != Pending ==> Final(events + [e]) == Final(events)
    ensures Final(events) == Pending && e.Data? ==>
              && Arrived(events + [e]) == Arrived(events) + e.chunk
              && Final(events + [e]) == Decided(Judge(Arrived(events + [e])))
    ensures Final(events) == Pending && !e.Data? ==>
              Final(events + [e]) == Rejected && Arrived(events + [e]) == Arrived(events)
  {
    EndsAppend(events, e);
    ArrivedAppend(events, e);
    if Final(events) != Pending {
      SettledStays(Arrived(events), Ends(events), if e.Data? then e.chunk else []);
    }
  }

  /** The socket delivers a sequence of events to the reader. */
  method ReadResponse(events: seq<SocketEvent>) returns (outcome: Outcome)
    ensures outcome == Settlement(Arrived(events), Ends(events))
  {
    var reader := new ResponseReader();
    for i := 0 to |events|
      invariant reader.Valid() && fresh(reader)
      invariant reader.outcome == Final(events[..i])
      invariant reader.outcome == Pending ==> Concat(reader.chunks) == Arrived(events[..i])
    {
      var e := events[i];
      OneMoreEvent(events[..i], e);
      assert events[..i + 1] == events[..i] + [e];
      if e.Data? {
        reader.OnData(e.chunk);
      } else {
        reader.OnOther(e);
      }
    }
    assert events[..|events|] == events;
    outcome := reader.outcome;
  }
}
