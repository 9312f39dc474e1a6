/** The two clients on the wire: what they send, and what they make of a response (client/nervfs_client.c, bridge/nervfsClient.js). */
module Clients {
  import opened Bytes
  import opened Protocol
  import opened Payloads
  import opened Bridge

  function Narrow16(n: nat): u16 {
    n % TWO_16
  }

  // ---------------------------------------------------------------- requests

  /** The bytes of a request: header, then payload. */
  function RequestBytes(opcode: u16, payload: Payload): seq<byte> {
    SerializeHeader(Header(MAGIC, VERSION, opcode, |payload|, 0)) + payload
  }

  /** `send_request` of the C client: two full sends. */
  method SendRequest(sock: Socket, opcode: u16, payload: Payload) returns (ok: bool)
    modifies sock`outgoing, sock`broken
    ensures ok ==> sock.outgoing == old(sock.outgoing) + RequestBytes(opcode, payload)
    ensures !ok ==> sock.broken
  {
    var header := SerializeHeader(Header(MAGIC, VERSION, opcode, |payload|, 0));
    var sent := SendFull(sock, header);
    if sent < 0 {
      return false;
    }
    if |payload| > 0 {
      sent := SendFull(sock, payload);
      if sent < 0 {
        return false;
      }
      assert old(sock.outgoing) + header + payload == old(sock.outgoing) + RequestBytes(opcode, payload);
    } else {
      assert header + payload == header;
    }
    return true;
  }

  /** The payload length `do_upload` computes: a 16-bit name length and a 32-bit sum. */
  function UploadLengthInC(nameLen: nat, size: nat): u32 {
    Wrap32(2 + Narrow16(nameLen) + 8 + Wrap32(size))
  }

  /** The C client announces the true length of an upload exactly when name and payload fit their fields. */
  lemma UploadLengthIsExact(name: Name, data: seq<byte>)
    ensures UploadLengthInC(|name|, |data|) == |EncodeUpload(name, data)| <==>
            |name| < TWO_16 && |EncodeUpload(name, data)| < TWO_32
  {
  }

  /** `do_upload` fills its payload buffer; the sizes are those its 32-bit length can hold. */
  method BuildUploadInC(name: Name, data: seq<byte>) returns (payload: array<byte>)
    requires |name| < TWO_16 && |EncodeUpload(name, data)| < TWO_32
    ensures payload[..] == EncodeUpload(name, data)
  {
    payload := new byte[UploadLengthInC(|name|, |data|)](_ => 0);
    ghost var prefix := Big(2, |name|);
    PutBytes(payload, 0, Big(2, Narrow16(|name|)));
    assert payload[..2] == prefix;
    PutBytes(payload, 2, name);
    assert payload[..2 + |name|] == prefix + name;
    PutBytes(payload, 2 + |name|, Big(8, |data|));
    assert payload[..2 + |name| + 8] == prefix + name + Big(8, |data|);
    PutBytes(payload, 2 + |name| + 8, data);
    assert payload[..] == payload[..payload.Length];
  }

  /** `request` of the bridge with the payload of `uploadFile`; a throw is `None`. */
  function UploadInJs(name: Name, data: seq<byte>): Option<seq<byte>> {
    if |name| >= TWO_16 || |data| >= TWO_64 then None
    else
      var meta := Big(2, |name|) + name + Big(8, |data|);
      var payload := meta + data;
      var header := BuildHeader(REQ_UPLOAD, |payload|);
      if header.None? then None else Some(header.value + payload)
  }

  /** `filenamePayload` with the request it is sent in. */
  function NameRequestInJs(opcode: u16, name: Name): Option<seq<byte>> {
    if |name| >= TWO_16 then None
    else
      var payload := Big(2, |name|) + name;
      var header := BuildHeader(opcode, |payload|);
      if header.None? then None else Some(header.value + payload)
  }

  function ChmodInJs(name: Name, mode: nat): Option<seq<byte>> {
    if |name| >= TWO_16 || mode >= TWO_32 then None
    else
      var payload := Big(2, |name|) + name + Big(4, mode);
      var header := BuildHeader(REQ_CHMOD, |payload|);
      if header.None? then None else Some(header.value + payload)
  }

  /** The bridge sends the protocol's upload request, or throws exactly when that request does not exist. */
  lemma UploadInJsIsCanonical(name: Name, data: seq<byte>)
    ensures UploadInJs(name, data) ==
            if |name| < TWO_16 && |EncodeUpload(name, data)| < TWO_32
            then Some(RequestBytes(REQ_UPLOAD, EncodeUpload(name, data)))
            else None
  {
    BuildersAgree(REQ_UPLOAD, |EncodeUpload(name, data)|);
  }

  lemma NameRequestInJsIsCanonical(opcode: u16, name: Name)
    ensures NameRequestInJs(opcode, name) ==
            if |name| < TWO_16 then Some(RequestBytes(opcode, EncodeName(name))) else None
  {
    BuildersAgree(opcode, |EncodeName(name)|);
  }

  lemma ChmodInJsIsCanonical(name: Name, mode: nat)
    ensures ChmodInJs(name, mode) ==
            if |name| < TWO_16 && mode < TWO_32 then Some(RequestBytes(REQ_CHMOD, EncodeChmod(name, mode))) else None
  {
    if |name| < TWO_16 && mode < TWO_32 {
      BuildersAgree(REQ_CHMOD, |EncodeChmod(name, mode)|);
    }
  }

  /** The sending half of `do_upload`. */
  method SendUploadInC(sock: Socket, name: Name, data: seq<byte>) returns (ok: bool)
    requires |name| < TWO_16 && |EncodeUpload(name, data)| < TWO_32
    modifies sock`outgoing, sock`broken
    ensures ok ==> sock.outgoing == old(sock.outgoing) + RequestBytes(REQ_UPLOAD, EncodeUpload(name, data))
    ensures !ok ==> sock.broken
  {
    var payload := BuildUploadInC(name, data);
    ok := SendRequest(sock, REQ_UPLOAD, payload[..]);
  }

  // ---------------------------------------------------------------- the server's side of a request

  /** What the server gets out of a connection: the header in the select loop, the payload in a worker. */
  datatype Incoming = Dropped | Request(opcode: u16, payload: Payload)

  function Accepted(stream: seq<byte>): Incoming {
    match Judge(stream)
    case Complete(h, body) => Request(h.opcode, body)
    case _ => Dropped
  }

  /** `handle_client_readable` followed by the receiving part of `process_job`. */
  method ReceiveRequest(sock: Socket) returns (r: Incoming)
    modifies sock`incoming
    ensures r == Accepted(old(sock.incoming))
  {
    var buf := new byte[HEADER_SIZE];
    ghost var stream := sock.incoming;
    var got := RecvFull(sock, buf, HEADER_SIZE);
    if got < HEADER_SIZE {
      return Dropped;
    }
    assert buf[..] == stream[..HEADER_SIZE] && sock.incoming == stream[HEADER_SIZE..];
    SameHeader(stream[..HEADER_SIZE], stream);
    var header := ParseHeader(buf[..]);
    if header.None? {
      return Dropped;
    }
    var len := header.value.payloadLen;
    var payload := new byte[len];
    if len > 0 {
      got := RecvFull(sock, payload, len);
      if got < len {
        return Dropped;
      }
    }
    assert payload[..] == stream[HEADER_SIZE..][..len] == stream[HEADER_SIZE..HEADER_SIZE + len];
    r := Request(header.value.opcode, payload[..]);
  }

  /** The server takes a request off a stream exactly when the stream starts with it; the reserved field may be anything. */
  lemma AcceptedIsCanonical(stream: seq<byte>, opcode: u16, payload: Payload)
    ensures Accepted(stream) == Request(opcode, payload) <==>
            exists reserved: u64 :: SerializeHeader(Header(0xAE, 1, opcode, |payload|, reserved)) + payload <= stream
  {
    if Accepted(stream) == Request(opcode, payload) {
      var h := Judge(stream).header;
      JudgeIsCanonical(stream, h, payload);
      assert h == Header(0xAE, 1, opcode, |payload|, h.reserved);
    }
    if exists reserved: u64 :: SerializeHeader(Header(0xAE, 1, opcode, |payload|, reserved)) + payload <= stream {
      var reserved: u64 :| SerializeHeader(Header(0xAE, 1, opcode, |payload|, reserved)) + payload <= stream;
      JudgeIsCanonical(stream, Header(0xAE, 1, opcode, |payload|, reserved), payload);
    }
  }

  /** Whatever follows on the connection, the server gets exactly the request that was sent. */
  lemma RequestArrives(opcode: u16, payload: Payload, rest: seq<byte>)
    ensures Accepted(RequestBytes(opcode, payload) + rest) == Request(opcode, payload)
  {
    var h := Header(MAGIC, VERSION, opcode, |payload|, 0);
    var s := RequestBytes(opcode, payload) + rest;
    HeaderRoundTrip(h, payload + rest);
    assert s == SerializeHeader(h) + (payload + rest);
  }

  // ---------------------------------------------------------------- responses

  /**
    What a client ends up with: data, a success with the server's time and perhaps its breakdown, an error the
    server reported, or no usable response.
  */
  datatype Result =
    | FileData(data: seq<byte>)
    | Success(elapsed: u64, metrics: Option<Times>)
    | ServerError(code: u16, msg: seq<byte>)
    | Unusable

  /** The three 64-bit fields of an upload's breakdown. */
  function TimesOf(body: seq<byte>): Times
    requires |body| >= 24
  {
    Times(Read64(body[..8]), Read64(body[8..16]), Read64(body[16..24]))
  }

  /** A reply seen by a receiver of the whole frame. */
  lemma FrameJudged(r: Reply, rest: seq<byte>)
    requires |r.body| < TWO_32
    ensures Judge(Frame(r) + rest) == Complete(Header(MAGIC, VERSION, r.opcode, |r.body|, r.elapsed), r.body)
  {
    FrameRoundTrip(r, rest);
  }

  const NO_MESSAGE := "NERV-FS request failed"

  /** `throwIfError` on an error body: missing fields have defaults, and `subarray` clamps. */
  function ErrorInJs(body: seq<byte>): Result {
    var code := if |body| >= 2 then ReadUInt16(body, 0) else 500;
    var msgLen: int := if |body| >= 4 then ReadUInt16(body, 2) else 0;
    var msg := if |body| < 4 then [] else body[4..if 4 + msgLen <= |body| then 4 + msgLen else |body|];
    ServerError(code, if msg == [] then Ascii(NO_MESSAGE) else msg)
  }

  /** `downloadFile` on a resolved response; any throw other than a reported error is `Unusable`. */
  function DownloadInJs(o: Outcome): Result {
    match o
    case Resolved(header, body) =>
      if header.opcode == RESP_ERR then ErrorInJs(body)
      else if header.opcode != RESP_FILE_DATA then Unusable
      else if |body| < 8 then Unusable
      else
        var size: nat := ReadBigUInt64(body, 0);
        FileData(body[8..if 8 + size <= |body| then 8 + size else |body|])
    case _ => Unusable
  }

  /** The breakdown as `uploadFile` reads it. */
  function TimesInJs(body: seq<byte>): Times
    requires |body| >= 24
  {
    Times(ReadBigUInt64(body, 0), ReadBigUInt64(body, 8), ReadBigUInt64(body, 16))
  }

  /** `uploadFile` on a resolved response. */
  function UploadedInJs(o: Outcome): Result {
    match o
    case Resolved(header, body) =>
      if header.opcode == RESP_ERR then ErrorInJs(body)
      else if header.opcode != RESP_OK then Unusable
      else Success(header.reserved, if |body| >= 24 then Some(TimesInJs(body)) else None)
    case _ => Unusable
  }

  /** `deleteFile` and `chmodFile` on a resolved response. */
  function DoneInJs(o: Outcome): Result {
    match o
    case Resolved(header, body) =>
      if header.opcode == RESP_ERR then ErrorInJs(body)
      else if header.opcode != RESP_OK then Unusable
      else Success(header.reserved, None)
    case _ => Unusable
  }

  /** `print_simple_result` on a response whose header has been read. */
  method PrintSimpleResult(sock: Socket, header: Header) returns (r: Result)
    modifies sock`incoming
    ensures r == SimpleResult(header, old(sock.incoming))
  {
    ghost var stream := sock.incoming;
    if header.opcode == RESP_OK {
      if header.payloadLen == 24 {
        var metrics := new byte[24];
        var got := RecvFull(sock, metrics, 24);
        if got == 24 {
          assert metrics[..] == stream[..24];
          return Success(header.reserved, Some(TimesOf(metrics[..])));
        }
      }
      return Success(header.reserved, None);
    }
    if header.opcode != RESP_ERR || header.payloadLen < 4 {
      return Unusable;
    }
    var buf := new byte[header.payloadLen];
    var got := RecvFull(sock, buf, header.payloadLen);
    if got != header.payloadLen {
      return Unusable;
    }
    assert buf[..] == stream[..header.payloadLen];
    r := ErrorInC(buf[..]);
  }

  /** An error body as the C client prints it; one it would read past the end of is `Unusable`. */
  function ErrorInC(body: seq<byte>): Result {
    if |body| < 4 then Unusable
    else
      var msgLen: int := Read16(body[2..4]);
      if 4 + msgLen > |body| then Unusable else ServerError(Read16(body[..2]), body[4..4 + msgLen])
  }

  function SimpleResult(header: Header, rest: seq<byte>): Result {
    if header.opcode == RESP_OK
    then Success(header.reserved, if header.payloadLen == 24 && |rest| >= 24 then Some(TimesOf(rest[..24])) else None)
    else if header.opcode != RESP_ERR || |rest| < header.payloadLen then Unusable
    else ErrorInC(rest[..header.payloadLen])
  }

  /** `do_download`: header, size prefix and data are received one after the other. */
  method DownloadInC(sock: Socket) returns (r: Result)
    modifies sock`incoming
    ensures r == DownloadOf(old(sock.incoming))
  {
    var buf := new byte[HEADER_SIZE];
    ghost var stream := sock.incoming;
    var got := RecvFull(sock, buf, HEADER_SIZE);
    if got != HEADER_SIZE {
      return Unusable;
    }
    assert buf[..] == stream[..HEADER_SIZE] && sock.incoming == stream[HEADER_SIZE..];
    SameHeader(stream[..HEADER_SIZE], stream);
    var header := ParseHeader(buf[..]);
    if header.None? {
      return Unusable;
    }
    if header.value.opcode != RESP_FILE_DATA {
      r := PrintSimpleResult(sock, header.value);
      return;
    }
    r := ReceiveFile(sock);
  }

  /** The rest of `do_download` once the header announces file data. */
  method ReceiveFile(sock: Socket) returns (r: Result)
    modifies sock`incoming
    ensures r == FileOf(old(sock.incoming))
  {
    ghost var stream := sock.incoming;
    var sizeBuf := new byte[8];
    var got := RecvFull(sock, sizeBuf, 8);
    if got != 8 {
      return Unusable;
    }
    assert sizeBuf[..] == stream[..8] && sock.incoming == stream[8..];
    var size := Read64(sizeBuf[..]);
    var data := new byte[size];
    if size > 0 {
      got := RecvFull(sock, data, size);
      if got != size {
        return Unusable;
      }
    }
    assert data[..] == stream[8..][..size] == stream[8..8 + size];
    r := FileData(data[..]);
  }

  function FileOf(rest: seq<byte>): Result {
    if |rest| < 8 then Unusable
    else
      var size: nat := Read64(rest[..8]);
      if |rest| < 8 + size then Unusable else FileData(rest[8..8 + size])
  }

  /** What the C client makes of a response stream; it never looks at the payload length of file data. */
  function DownloadOf(stream: seq<byte>): Result {
    if |stream| < HEADER_SIZE || ParseHeader(stream).None? then Unusable
    else
      var header := ParseHeader(stream).value;
      if header.opcode != RESP_FILE_DATA then SimpleResult(header, stream[HEADER_SIZE..])
      else FileOf(stream[HEADER_SIZE..])
  }

  /** A receiver that goes by the header takes the announced part of a body. */
  lemma AnnouncedPart(r: Reply, rest: seq<byte>)
    ensures Judge(Frame(r) + rest) == Complete(ReplyHeader(r), r.body[..Wrap32(|r.body|)])
  {
    var stream := Frame(r) + rest;
    var announced := Wrap32(|r.body|);
    HeaderRoundTrip(ReplyHeader(r), r.body + rest);
    assert stream == SerializeHeader(ReplyHeader(r)) + (r.body + rest);
    assert stream[HEADER_SIZE..HEADER_SIZE + announced] == r.body[..announced];
  }

  lemma CutAfterSize(prefix: seq<byte>, data: seq<byte>, k: nat)
    requires |prefix| <= k <= |prefix| + |data|
    ensures var body := (prefix + data)[..k];
            body[0..|prefix|] == prefix && body[|prefix|..] == data[..k - |prefix|]
  {
  }

  lemma SizeInJs(body: seq<byte>, n: u64)
    requires |body| >= 8 && body[0..8] == Big(8, n)
    ensures ReadBigUInt64(body, 0) == n
  {
    ReadersAgree64(body, 0);
    Widths();
    PrintInjective(8, Read64(body[0..8]), n);
  }

  lemma FileInJs(header: Header, body: seq<byte>)
    requires header.opcode == RESP_FILE_DATA && |body| >= 8 && |body| <= 8 + ReadBigUInt64(body, 0)
    ensures DownloadInJs(Resolved(header, body)) == FileData(body[8..])
  {
    assert body[8..|body|] == body[8..];
  }

  lemma PrefixedInJs(header: Header, prefix: seq<byte>, data: seq<byte>, announced: nat)
    requires |prefix| == 8 && ReadBigUInt64(prefix, 0) == |data| && 8 <= announced <= 8 + |data|
    requires header.opcode == RESP_FILE_DATA
    ensures DownloadInJs(Resolved(header, (prefix + data)[..announced])) == FileData(data[..announced - 8])
  {
    var body := (prefix + data)[..announced];
    CutAfterSize(prefix, data, announced);
    assert forall i :: 0 <= i < 8 ==> body[i] == prefix[i];
    FileInJs(header, body);
  }

  lemma FileBodyInJs(header: Header, data: seq<byte>, announced: nat)
    requires |data| < TWO_64 && announced <= 8 + |data| && header.opcode == RESP_FILE_DATA
    ensures DownloadInJs(Resolved(header, (Big(8, |data|) + data)[..announced])) ==
            if announced < 8 then Unusable else FileData(data[..announced - 8])
  {
    if announced >= 8 {
      var prefix := Big(8, |data|);
      assert prefix[0..8] == prefix;
      SizeInJs(prefix, |data|);
      PrefixedInJs(header, prefix, data, announced);
    }
  }

  /** What the bridge makes of a complete download response: the part that the header's 32-bit length covers. */
  lemma DownloadSeenInJs(elapsed: u64, data: seq<byte>, rest: seq<byte>, ends: bool)
    requires |data| < TWO_64
    ensures var announced := Wrap32(8 + |data|);
            DownloadInJs(Settlement(Frame(FileReply(elapsed, data)) + rest, ends)) ==
            if announced < 8 then Unusable else FileData(data[..announced - 8])
  {
    var r := FileReply(elapsed, data);
    AnnouncedPart(r, rest);
    FileBodyInJs(ReplyHeader(r), data, Wrap32(8 + |data|));
  }

  lemma DownloadSeenInC(elapsed: u64, data: seq<byte>, rest: seq<byte>)
    requires |data| < TWO_64
    ensures DownloadOf(Frame(FileReply(elapsed, data)) + rest) == FileData(data)
  {
    var r := FileReply(elapsed, data);
    var stream := Frame(r) + rest;
    HeaderRoundTrip(ReplyHeader(r), r.body + rest);
    assert stream == SerializeHeader(ReplyHeader(r)) + (r.body + rest);
    var tail := stream[HEADER_SIZE..];
    assert tail[..8] == Big(8, |data|) && tail[8..8 + |data|] == data;
    Widths();
    PrintInjective(8, Read64(Big(8, |data|)), |data|);
  }

  /**
    A complete download response, however it was cut: the C client gets exactly the file, whatever its size; the
    bridge gets it exactly when size prefix and file fit the 32-bit length of the header.
  */
  lemma DownloadRoundTrip(elapsed: u64, data: seq<byte>, rest: seq<byte>, ends: bool)
    requires |data| < TWO_64
    ensures var stream := Frame(FileReply(elapsed, data)) + rest;
            && DownloadOf(stream) == FileData(data)
            && (DownloadInJs(Settlement(stream, ends)) == FileData(data) <==> 8 + |data| < TWO_32)
  {
    DownloadSeenInC(elapsed, data, rest);
    DownloadSeenInJs(elapsed, data, rest, ends);
    if 8 + |data| < TWO_32 {
      assert data[..|data|] == data;
    }
  }

  /** What the C client makes of the response to an upload, delete or chmod. */
  function SimpleOf(stream: seq<byte>): Result {
    if |stream| < HEADER_SIZE || ParseHeader(stream).None? then Unusable
    else SimpleResult(ParseHeader(stream).value, stream[HEADER_SIZE..])
  }

  lemma TimesRoundTrip(t: Times)
    ensures TimesOf(UploadReply(t).body) == TimesInJs(UploadReply(t).body) == t
  {
    var body := UploadReply(t).body;
    assert body[..8] == Big(8, t.network) && body[8..16] == Big(8, t.write) && body[16..24] == Big(8, t.sync);
    FieldRoundTrip(t.network);
    FieldRoundTrip(t.write);
    FieldRoundTrip(t.sync);
    ReadersAgree64(body, 0);
    ReadersAgree64(body, 8);
    ReadersAgree64(body, 16);
  }

  /** Both clients read the total and the breakdown the server measured. */
  lemma UploadedRoundTrip(t: Times, rest: seq<byte>, ends: bool)
    ensures var stream, result := Frame(UploadReply(t)) + rest, Success(UploadReply(t).elapsed, Some(t));
            UploadedInJs(Settlement(stream, ends)) == result && SimpleOf(stream) == result
  {
    var r := UploadReply(t);
    FrameJudged(r, rest);
    FrameRoundTrip(r, rest);
    TimesRoundTrip(t);
    assert (Frame(r) + rest)[HEADER_SIZE..][..24] == r.body;
  }

  lemma ErrorBodyRoundTrip(code: u16, msg: string)
    requires 0 < |msg| < TWO_16
    ensures var body := ErrReply(code, msg).body;
            ErrorInJs(body) == ErrorInC(body) == ServerError(code, Ascii(msg))
  {
    var body := ErrReply(code, msg).body;
    assert body[..2] == Big(2, code) && body[2..4] == Big(2, |msg|) && body[4..] == Ascii(msg);
    Widths();
    PrintInjective(2, Read16(body[..2]), code);
    PrintInjective(2, Read16(body[2..4]), |msg|);
    Digits16(code);
    Digits16(|msg|);
    Digits16(Read16(body[..2]));
    Digits16(Read16(body[2..4]));
  }

  /** Both clients report exactly the server's error code and message, whatever they had asked for. */
  lemma ErrorRoundTrip(code: u16, msg: string, rest: seq<byte>, ends: bool)
    requires 0 < |msg| < TWO_16
    ensures var stream, result := Frame(ErrReply(code, msg)) + rest, ServerError(code, Ascii(msg));
            && UploadedInJs(Settlement(stream, ends)) == DownloadInJs(Settlement(stream, ends)) == result
            && SimpleOf(stream) == DownloadOf(stream) == result
  {
    var r := ErrReply(code, msg);
    FrameJudged(r, rest);
    FrameRoundTrip(r, rest);
    ErrorBodyRoundTrip(code, msg);
    assert (Frame(r) + rest)[HEADER_SIZE..][..|r.body|] == r.body;
  }

  /** Both clients take the plain OK of a delete or a chmod, with its time, for a success, whatever follows it. */
  lemma OkRoundTrip(elapsed: u64, rest: seq<byte>, ends: bool)
    ensures var stream := Frame(OkReply(elapsed)) + rest;
            SimpleOf(stream) == DoneInJs(Settlement(stream, ends)) == Success(elapsed, None)
  {
    FrameJudged(OkReply(elapsed), rest);
    FrameRoundTrip(OkReply(elapsed), rest);
  }

  /** An error response is the same to every caller of the bridge. */
  lemma ErrorDone(code: u16, msg: string, rest: seq<byte>, ends: bool)
    requires 0 < |msg| < TWO_16
    ensures DoneInJs(Settlement(Frame(ErrReply(code, msg)) + rest, ends)) == ServerError(code, Ascii(msg))
  {
    FrameJudged(ErrReply(code, msg), rest);
    ErrorBodyRoundTrip(code, msg);
  }

  /** A response has a header that this protocol accepts. */
  predicate HasHeader(stream: seq<byte>, opcode: u16) {
    |stream| >= 16 && ParseHeader(stream).Some? && ParseHeader(stream).value.opcode == opcode
  }

  /** When the C client reports success: on every OK header, with the breakdown exactly when its 24 bytes are there. */
  lemma SuccessIsCanonical(stream: seq<byte>, elapsed: u64, metrics: Option<Times>)
    ensures SimpleOf(stream) == Success(elapsed, metrics) <==>
            && HasHeader(stream, 0x80) && elapsed == ParseHeader(stream).value.reserved
            && (metrics.Some? <==> ParseHeader(stream).value.payloadLen == 24 && |stream| >= 40)
            && (metrics.Some? ==> stream[16..40] == UploadReply(metrics.value).body)
  {
    if HasHeader(stream, 0x80) && |stream| >= 40 {
      assert stream[16..][..24] == stream[16..40];
      BreakdownIsCanonical(stream[16..40], metrics);
    }
  }

  lemma BreakdownIsCanonical(body: seq<byte>, metrics: Option<Times>)
    requires |body| == 24
    ensures metrics == Some(TimesOf(body)) <==> metrics.Some? && body == UploadReply(metrics.value).body
  {
    var t := TimesOf(body);
    assert body == body[..8] + body[8..16] + body[16..24];
    if metrics.Some? && body == UploadReply(metrics.value).body {
      TimesRoundTrip(metrics.value);
    }
  }

  /** When it reports an error: the announced bytes are there, and start with code, length and message. */
  lemma ErrorIsCanonical(stream: seq<byte>, code: u16, msg: seq<byte>)
    requires |msg| < TWO_16
    ensures SimpleOf(stream) == ServerError(code, msg) <==>
            && HasHeader(stream, 0x81)
            && |stream| >= 16 + ParseHeader(stream).value.payloadLen
            && Big(2, code) + Big(2, |msg|) + msg <= stream[16..16 + ParseHeader(stream).value.payloadLen]
  {
    if HasHeader(stream, 0x81) && |stream| >= 16 + ParseHeader(stream).value.payloadLen {
      var n := ParseHeader(stream).value.payloadLen;
      assert stream[16..][..n] == stream[16..16 + n];
      ErrorBodyIsCanonical(stream[16..16 + n], code, msg);
    }
  }

  lemma ErrorBodyIsCanonical(body: seq<byte>, code: u16, msg: seq<byte>)
    requires |msg| < TWO_16
    ensures ErrorInC(body) == ServerError(code, msg) <==> Big(2, code) + Big(2, |msg|) + msg <= body
  {
    var printed := Big(2, code) + Big(2, |msg|) + msg;
    if ErrorInC(body) == ServerError(code, msg) {
      assert body[..4 + |msg|] == body[..2] + body[2..4] + body[4..4 + |msg|];
    }
    if printed <= body {
      assert body[..2] == printed[..2] == Big(2, code) && body[2..4] == printed[2..4] == Big(2, |msg|);
      assert body[4..4 + |msg|] == printed[4..] == msg;
      Widths();
      PrintInjective(2, Read16(body[..2]), code);
      PrintInjective(2, Read16(body[2..4]), |msg|);
    }
  }

  /** When it reports a file: the size prefix and that many bytes are there. */
  lemma FileIsCanonical(stream: seq<byte>, data: seq<byte>)
    requires |data| < TWO_64
    ensures DownloadOf(stream) == FileData(data) <==>
            HasHeader(stream, 0x82) && Big(8, |data|) + data <= stream[16..]
    ensures !HasHeader(stream, 0x82) ==> DownloadOf(stream) == SimpleOf(stream) && !SimpleOf(stream).FileData?
    ensures HasHeader(stream, 0x82) ==> DownloadOf(stream).FileData? || DownloadOf(stream) == Unusable
  {
    if HasHeader(stream, 0x82) {
      FileBodyIsCanonical(stream[16..], data);
    }
  }

  lemma StartsWithTwo(s: seq<byte>, x: seq<byte>, y: seq<byte>)
    ensures x + y <= s <==> |s| >= |x| + |y| && s[..|x|] == x && s[|x|..|x| + |y|] == y
  {
    if |s| >= |x| + |y| && s[..|x|] == x && s[|x|..|x| + |y|] == y {
      assert s[..|x| + |y|] == s[..|x|] + s[|x|..|x| + |y|];
    }
    if x + y <= s {
      assert s[..|x|] == (x + y)[..|x|] == x;
      assert s[|x|..|x| + |y|] == (x + y)[|x|..] == y;
    }
  }

  lemma SizeIs(s: seq<byte>, n: u64)
    requires |s| == 8
    ensures Read64(s) == n <==> s == Big(8, n)
  {
    if s == Big(8, n) {
      Widths();
      PrintInjective(8, Read64(s), n);
    }
  }

  lemma FileOfMeans(rest: seq<byte>, data: seq<byte>)
    requires |rest| >= 8
    ensures FileOf(rest) == FileData(data) <==>
            Read64(rest[..8]) == |data| && |rest| >= 8 + |data| && rest[8..8 + |data|] == data
  {
  }

  lemma FileBodyIsCanonical(rest: seq<byte>, data: seq<byte>)
    requires |data| < TWO_64
    ensures FileOf(rest) == FileData(data) <==> Big(8, |data|) + data <= rest
  {
    StartsWithTwo(rest, Big(8, |data|), data);
    if |rest| >= 8 {
      FileOfMeans(rest, data);
      SizeIs(rest[..8], |data|);
    }
  }

  /** The bridge takes no answer of another kind than the one its request asks for, and no file without its size. */
  lemma WrongAnswerInJs(header: Header, body: seq<byte>)
    requires header.opcode != 0x81
    ensures header.opcode != 0x82 || |body| < 8 ==> DownloadInJs(Resolved(header, body)) == Unusable
    ensures header.opcode != 0x80 ==> UploadedInJs(Resolved(header, body)) == DoneInJs(Resolved(header, body)) == Unusable
  {
  }

  /** The bridge's error has a code and a message even when the body has not. */
  lemma ErrorInJsDefaults(body: seq<byte>)
    ensures |body| < 2 ==> ErrorInJs(body) == ServerError(500, Ascii("NERV-FS request failed"))
    ensures 2 <= |body| <= 4 ==> ErrorInJs(body) == ServerError(Value(body[..2]), Ascii("NERV-FS request failed"))
  {
    if |body| >= 2 {
      ReadersAgree16(body, 0);
      assert body[..2] == body[0..2];
    }
  }
}
