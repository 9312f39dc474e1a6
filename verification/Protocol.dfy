/** The 16-byte header, the two full-transfer loops, and the reply frames (src/protocol.c, src/handlers.c). */
module Protocol {
  import opened Bytes

  const MAGIC: byte := 0xAE
  const VERSION: byte := 1
  const HEADER_SIZE := 16

  const REQ_UPLOAD: u16 := 0x01
  const REQ_DOWNLOAD: u16 := 0x02
  const REQ_LIST: u16 := 0x03
  const REQ_DELETE: u16 := 0x04
  const REQ_CHMOD: u16 := 0x05
  const RESP_OK: u16 := 0x80
  const RESP_ERR: u16 := 0x81
  const RESP_FILE_DATA: u16 := 0x82
  const RESP_LIST_DATA: u16 := 0x83

  datatype Header = Header(magic: byte, version: byte, opcode: u16, payloadLen: u32, reserved: u64)

  /** The bytes `serialize_header` writes. */
  function SerializeHeader(h: Header): (s: seq<byte>)
    ensures |s| == HEADER_SIZE
  {
    [h.magic, h.version] + Big(2, h.opcode) + Big(4, h.payloadLen) + Big(8, h.reserved)
  }

  /** What `parse_header` reads, before it looks at magic and version. */
  function RawHeader(buf: seq<byte>): Header
    requires |buf| >= HEADER_SIZE
  {
    Header(buf[0], buf[1], Read16(buf[2..4]), Read32(buf[4..8]), Read64(buf[8..16]))
  }

  function ParseHeader(buf: seq<byte>): Option<Header>
    requires |buf| >= HEADER_SIZE
  {
    var h := RawHeader(buf);
    if h.magic != MAGIC then None
    else if h.version != VERSION then None
    else Some(h)
  }

  /** Every field survives a round trip, whatever follows the header on the wire. */
  lemma RawHeaderRoundTrip(h: Header, rest: seq<byte>)
    ensures RawHeader(SerializeHeader(h) + rest) == h
  {
    var s := SerializeHeader(h) + rest;
    assert s[2..4] == Big(2, h.opcode);
    assert s[4..8] == Big(4, h.payloadLen);
    assert s[8..16] == Big(8, h.reserved);
    Widths();
    PrintInjective(2, Read16(s[2..4]), h.opcode);
    PrintInjective(4, Read32(s[4..8]), h.payloadLen);
    PrintInjective(8, Read64(s[8..16]), h.reserved);
  }

  /** The receiver accepts a printed header exactly when it carries this protocol's magic and version. */
  lemma HeaderRoundTrip(h: Header, rest: seq<byte>)
    ensures ParseHeader(SerializeHeader(h) + rest) ==
            if h.magic == MAGIC && h.version == VERSION then Some(h) else None
  {
    RawHeaderRoundTrip(h, rest);
  }

  /** Conversely, an accepted header has only one byte form. */
  lemma HeaderCanonical(buf: seq<byte>)
    requires |buf| >= HEADER_SIZE && ParseHeader(buf).Some?
    ensures SerializeHeader(ParseHeader(buf).value) == buf[..HEADER_SIZE]
  {
    var s := SerializeHeader(RawHeader(buf));
    assert s[2..4] == buf[2..4] && s[4..8] == buf[4..8];
    assert s[8..16] == Big(8, RawHeader(buf).reserved) == buf[8..16];
    assert s == s[..2] + s[2..4] + s[4..8] + s[8..16];
    assert buf[..16] == buf[..2] + buf[2..4] + buf[4..8] + buf[8..16];
  }

  /** `serialize_header`: fills a caller's buffer. */
  method SerializeInto(h: Header, buf: array<byte>)
    requires buf.Length >= HEADER_SIZE
    modifies buf
    ensures buf[..HEADER_SIZE] == SerializeHeader(h) && buf[HEADER_SIZE..] == old(buf[HEADER_SIZE..])
  {
    buf[0] := h.magic;
    buf[1] := h.version;
    WriteBig(buf, 2, 2, h.opcode);
    assert buf[16..] == buf[4..][12..] == old(buf[16..]);
    ghost var first := buf[..4];
    assert first == [h.magic, h.version] + Big(2, h.opcode) by {
      assert first == buf[..2] + buf[2..4];
    }
    WriteBig(buf, 4, 4, h.payloadLen);
    assert buf[16..] == buf[8..][8..] == old(buf[16..]);
    ghost var second := buf[..8];
    assert second == first + Big(4, h.payloadLen) by {
      assert second == buf[..4] + buf[4..8];
    }
    WriteBig(buf, 8, 8, h.reserved);
    assert buf[..16] == buf[..8] + buf[8..16];
  }

  /** How a connection ends once the bytes the peer sent have been read. */
  datatype Ending = AtEnd | Broken

  /**
    One connected socket. `incoming` is what the peer will still deliver before the connection ends; how many
    bytes one `read` or `write` moves is left open, so every segmentation is covered.
  */
  class Socket {
    var incoming: seq<byte>
    const ending: Ending
    var outgoing: seq<byte>
    var broken: bool

    constructor (incoming: seq<byte>, ending: Ending)
      ensures this.incoming == incoming && this.ending == ending && outgoing == [] && !broken
    {
      this.incoming, this.ending := incoming, ending;
      outgoing, broken := [], false;
    }

    /** `read`: some positive number of the bytes left, 0 at the end of the stream, or -1 on an error. */
    method Read(buf: array<byte>, off: nat, max: nat) returns (n: int)
      requires 0 < max && off + max <= buf.Length
      modifies this`incoming, buf
      ensures old(incoming) == [] ==> n == (if ending == AtEnd then 0 else -1)
      ensures old(incoming) != [] ==> 1 <= n <= max && n <= |old(incoming)|
      ensures n > 0 ==> buf[off..off + n] == old(incoming)[..n]
      ensures incoming == if n > 0 then old(incoming)[n..] else old(incoming)
      ensures buf[..off] == old(buf[..off])
    {
      if incoming == [] {
        n := if ending == AtEnd then 0 else -1;
      } else {
        n := *;
        if n < 1 || n > max || n > |incoming| {
          n := 1;
        }
        forall i | 0 <= i < n {
          buf[off + i] := incoming[i];
        }
        incoming := incoming[n..];
      }
    }

    /** `write`: accepts some positive number of bytes, or fails; a failed connection stays failed. */
    method Write(data: seq<byte>) returns (n: int)
      requires data != []
      modifies this`outgoing, this`broken
      ensures n == -1 || 1 <= n <= |data|
      ensures n == -1 ==> broken && outgoing == old(outgoing)
      ensures n > 0 ==> !broken && !old(broken) && outgoing == old(outgoing) + data[..n]
    {
      var fails: bool := *;
      if broken || fails {
        broken := true;
        n := -1;
      } else {
        n := *;
        if n < 1 || n > |data| {
          n := |data|;
        }
        outgoing := outgoing + data[..n];
      }
    }
  }

  /** What `recv_full` returns for `len` bytes of a stream: independent of how the stream was cut. */
  function Received(stream: seq<byte>, ending: Ending, len: nat): int {
    if |stream| >= len then len else if ending == AtEnd then |stream| else -1
  }

  /** `recv_full`: loops until `len` bytes, the end of the stream, or an error. */
  method RecvFull(sock: Socket, buf: array<byte>, len: nat) returns (got: int)
    requires len <= buf.Length
    modifies sock`incoming, buf
    ensures got == Received(old(sock.incoming), sock.ending, len)
    ensures got == len ==> buf[..len] == old(sock.incoming)[..len]
    ensures sock.incoming == old(sock.incoming)[if |old(sock.incoming)| < len then |old(sock.incoming)| else len..]
  {
    var total := 0;
    ghost var stream := sock.incoming;
    while total < len
      invariant 0 <= total <= len && total <= |stream|
      invariant buf[..total] == stream[..total]
      invariant sock.incoming == stream[total..]
    {
      var n := sock.Read(buf, total, len - total);
      if n == 0 {
        return total;
      }
      if n < 0 {
        return -1;
      }
      assert buf[..total + n] == buf[..total] + buf[total..total + n];
      total := total + n;
    }
    return total;
  }

  /** `send_full`: on success all the bytes went out in order; on failure a prefix did. */
  method SendFull(sock: Socket, data: seq<byte>) returns (sent: int)
    modifies sock`outgoing, sock`broken
    ensures sent == -1 || sent == |data|
    ensures sent == |data| ==> sock.outgoing == old(sock.outgoing) + data && (data != [] ==> !sock.broken)
    ensures sent == -1 ==> sock.broken
    ensures exists k :: 0 <= k <= |data| && sock.outgoing == old(sock.outgoing) + data[..k]
    ensures old(sock.broken) ==> sock.broken && sock.outgoing == old(sock.outgoing)
  {
    var total := 0;
    assert sock.outgoing == old(sock.outgoing) + data[..total];
    while total < |data|
      invariant 0 <= total <= |data|
      invariant sock.outgoing == old(sock.outgoing) + data[..total]
      invariant total > 0 ==> !sock.broken && !old(sock.broken)
      invariant total == 0 ==> sock.broken == old(sock.broken)
    {
      var n := sock.Write(data[total..]);
      if n < 0 {
        return -1;
      }
      assert data[..total + n] == data[..total] + data[total..][..n];
      total := total + n;
    }
    assert data[..total] == data;
    return total;
  }
}
