/** Names, request payloads and replies as the server reads and prints them (src/fileops.c, src/handlers.c). */
module Payloads {
  import opened Bytes
  import opened Protocol

  type Name = seq<byte>

  const MAX_NAME_LEN := 255
  const PATH_MAX := 4096
  const SLASH: byte := 0x2F
  const DOT: byte := 0x2E

  const ERR_BAD_REQUEST: u16 := 400
  const ERR_FORBIDDEN: u16 := 403
  const ERR_NOT_FOUND: u16 := 404
  const ERR_INTERNAL: u16 := 500

  /** The resolved storage directory; any path at all. */
  const STORAGE_ROOT: seq<byte>

  // ---------------------------------------------------------------- names

  /** `strlen`: the distance to the first zero byte. */
  function StrLen(s: seq<byte>): (n: nat)
    requires 0 in s
    ensures n < |s| && s[n] == 0 && 0 !in s[..n]
  {
    if s[0] == 0 then 0
    else
      assert s == [s[0]] + s[1..];
      var n := 1 + StrLen(s[1..]);
      assert s[..n] == [s[0]] + s[1..][..n - 1];
      n
  }

  function SafeResolve(name: seq<byte>): Option<seq<byte>> {
    if |name| == 0 || |name| > MAX_NAME_LEN then None
    else
      var safeName := name + [0];
      assert safeName[|name|] == 0;
      if StrLen(safeName) != |name| then None
      else if SLASH in safeName[..StrLen(safeName)] then None
      else if safeName[..|name|] == [DOT] || safeName[..|name|] == [DOT, DOT] then None
      else
        var path := STORAGE_ROOT + [SLASH] + safeName[..|name|];
        if |path| >= PATH_MAX then None else Some(path)
  }

  /** The documented filename rules, and the room the storage path leaves. */
  predicate ValidName(name: seq<byte>) {
    && 1 <= |name| <= MAX_NAME_LEN
    && 0 !in name && SLASH !in name
    && name != [DOT] && name != [DOT, DOT]
    && |STORAGE_ROOT| + 1 + |name| < PATH_MAX
  }

  /** A name is resolved exactly when it obeys the rules, and then to the path directly below the root. */
  lemma ResolveAcceptsValidNames(name: seq<byte>)
    ensures SafeResolve(name) ==
            if ValidName(name) then Some(STORAGE_ROOT + [SLASH] + name) else None
  {
    var safeName := name + [0];
    assert safeName[|name|] == 0;
    var n := StrLen(safeName);
    assert safeName[..|name|] == name;
    assert forall i :: 0 <= i < |name| ==> safeName[i] == name[i];
    assert n == |name| ==> safeName[..n] == name;
  }

  /** The position of the last slash of a path, as a kernel splits directory from entry. */
  function LastSlash(path: seq<byte>): (i: nat)
    requires SLASH in path
    ensures i < |path| && path[i] == SLASH && SLASH !in path[i + 1..]
  {
    var n := |path| - 1;
    if path[n] == SLASH then n
    else
      assert path == path[..n] + [path[n]];
      var i := LastSlash(path[..n]);
      assert path[i + 1..] == path[..n][i + 1..] + [path[n]];
      i
  }

  lemma LastSlashOfJoin(dir: seq<byte>, name: seq<byte>)
    requires SLASH !in name
    ensures var path := dir + [SLASH] + name;
            SLASH in path && path[..LastSlash(path)] == dir && path[LastSlash(path) + 1..] == name
  {
    var path := dir + [SLASH] + name;
    assert path[|dir|] == SLASH;
    var i := LastSlash(path);
    assert forall j :: |dir| < j < |path| ==> path[j] == name[j - |dir| - 1];
    assert forall j :: i < j < |path| ==> path[j] == path[i + 1..][j - i - 1];
  }

  /** No accepted name leaves the storage directory: the directory part of its path is the root. */
  lemma ResolveStaysInRoot(name: seq<byte>)
    requires SafeResolve(name).Some?
    ensures var path := SafeResolve(name).value;
            SLASH in path && path[..LastSlash(path)] == STORAGE_ROOT && path[LastSlash(path) + 1..] == name
  {
    ResolveAcceptsValidNames(name);
    LastSlashOfJoin(STORAGE_ROOT, name);
  }

  /** Two names never share a path, so locking by name is locking by path. */
  lemma PathsAreDistinct(name: seq<byte>, other: seq<byte>)
    requires SafeResolve(name).Some? && SafeResolve(other) == SafeResolve(name)
    ensures other == name
  {
    ResolveStaysInRoot(name);
    ResolveStaysInRoot(other);
  }

  // ---------------------------------------------------------------- requests

  datatype Request =
    | Upload(name: Name, data: seq<byte>)
    | Download(name: Name)
    | Delete(name: Name)
    | Chmod(name: Name, mode: u32)
    | List
    | Reject(code: u16, msg: string)

  /** 32-bit unsigned arithmetic: lossless exactly on the values it can hold. */
  function Wrap32(n: int): (w: u32)
    ensures w == n <==> 0 <= n < TWO_32
  {
    n % TWO_32
  }

  function EncodeName(name: Name): seq<byte> {
    Big(2, |name|) + name
  }

  function EncodeUpload(name: Name, data: seq<byte>): seq<byte> {
    Big(2, |name|) + name + Big(8, |data|) + data
  }

  function EncodeChmod(name: Name, mode: u32): seq<byte> {
    Big(2, |name|) + name + Big(4, mode)
  }

  /** A payload is at most what a 32-bit `payload_len` can announce. */
  type Payload = s: seq<byte> | |s| < TWO_32

  /** The checks of `handle_upload_timed`, in its order and in its 32-bit arithmetic. */
  function ParseUpload(payload: Payload): Request {
    var len := |payload|;
    if len < 2 then Reject(ERR_BAD_REQUEST, "upload payload too short")
    else
      var nameLen := Read16(payload[..2]);
      if len < Wrap32(Wrap32(2 + nameLen) + 8) then Reject(ERR_BAD_REQUEST, "upload payload truncated")
      else
        var name := payload[2..2 + nameLen];
        var offset := 2 + nameLen;
        var size := Read64(payload[offset..offset + 8]);
        if Wrap32(len - (offset + 8)) != size
        then Reject(ERR_BAD_REQUEST, "declared file size does not match payload")
        else if SafeResolve(name).None? then Reject(ERR_FORBIDDEN, "invalid filename")
        else Upload(name, payload[offset + 8..])
  }

  /** The shared shape of the download and delete checks. */
  function ParseName(payload: Payload, tooShort: string, malformed: string): Request
    ensures ParseName(payload, tooShort, malformed).Download? || ParseName(payload, tooShort, malformed).Reject?
  {
    if |payload| < 2 then Reject(ERR_BAD_REQUEST, tooShort)
    else
      var nameLen := Read16(payload[..2]);
      if |payload| != Wrap32(2 + nameLen) then Reject(ERR_BAD_REQUEST, malformed)
      else if SafeResolve(payload[2..]).None? then Reject(ERR_FORBIDDEN, "invalid filename")
      else Download(payload[2..])
  }

  function ParseDownload(payload: Payload): Request {
    ParseName(payload, "download payload too short", "download payload malformed")
  }

  function ParseDelete(payload: Payload): Request {
    match ParseName(payload, "delete payload too short", "delete payload malformed")
    case Download(name) => Delete(name)
    case refused => refused
  }

  function ParseChmod(payload: Payload): Request {
    if |payload| < 2 then Reject(ERR_BAD_REQUEST, "chmod payload too short")
    else
      var nameLen := Read16(payload[..2]);
      if |payload| != Wrap32(Wrap32(2 + nameLen) + 4) then Reject(ERR_BAD_REQUEST, "chmod payload malformed")
      else
        var name := payload[2..2 + nameLen];
        if SafeResolve(name).None? then Reject(ERR_FORBIDDEN, "invalid filename")
        else Chmod(name, Read32(payload[2 + nameLen..]))
  }

  /** `dispatch_request_timed`. */
  function ParseRequest(opcode: u16, payload: Payload): Request {
    if opcode == REQ_UPLOAD then ParseUpload(payload)
    else if opcode == REQ_DOWNLOAD then ParseDownload(payload)
    else if opcode == REQ_LIST then List
    else if opcode == REQ_DELETE then ParseDelete(payload)
    else if opcode == REQ_CHMOD then ParseChmod(payload)
    else Reject(ERR_BAD_REQUEST, "unknown opcode")
  }

  /** The largest file a 32-bit payload can carry: 2 + 1 + 8 bytes go to the other fields. */
  const MAX_FILE := TWO_32 - 12

  /** What every parsed request guarantees the handlers. */
  predicate WellFormed(r: Request) {
    match r
    case Upload(name, data) => ValidName(name) && |data| <= MAX_FILE
    case Download(name) => ValidName(name)
    case Delete(name) => ValidName(name)
    case Chmod(name, mode) => ValidName(name)
    case List => true
    case Reject(code, msg) => |msg| < 64
  }

  lemma FourParts(x: seq<byte>, y: seq<byte>, z: seq<byte>, rest: seq<byte>)
    ensures var p := x + y + z + rest; var a, b := |x| + |y|, |x| + |y| + |z|;
            p[..|x|] == x && p[|x|..a] == y && p[a..b] == z && p[b..] == rest
  {
  }

  lemma UploadFields(name: Name, data: seq<byte>)
    requires |name| < TWO_16
    ensures var p := EncodeUpload(name, data); var o := 2 + |name|;
            p[..2] == Big(2, |name|) && p[2..o] == name && p[o..o + 8] == Big(8, |data|) && p[o + 8..] == data
  {
    FourParts(Big(2, |name|), name, Big(8, |data|), data);
  }

  lemma UploadAccepted(payload: Payload)
    requires ParseUpload(payload).Upload?
    ensures var r := ParseUpload(payload); ValidName(r.name) && payload == EncodeUpload(r.name, r.data)
  {
    var nameLen := Read16(payload[..2]);
    var o := 2 + nameLen;
    var name := payload[2..o];
    ResolveAcceptsValidNames(name);
    var size := Read64(payload[o..o + 8]);
    assert |payload| - (o + 8) == |payload[o + 8..]|;
    assert payload == payload[..2] + name + payload[o..o + 8] + payload[o + 8..];
  }

  lemma UploadFieldsRead(name: Name, data: seq<byte>)
    requires |name| < TWO_16 && |data| < TWO_64
    ensures var p := EncodeUpload(name, data); var o := 2 + |name|;
            |p| == o + 8 + |data| && Read16(p[..2]) == |name| && Read64(p[o..o + 8]) == |data|
  {
    UploadFields(name, data);
    FieldRoundTrip(|name|);
    FieldRoundTrip(|data|);
  }

  /** The verdict on every well-formed upload payload: 403 for a bad name, acceptance otherwise. */
  lemma UploadVerdict(name: Name, data: seq<byte>)
    requires |name| < TWO_16 && 10 + |name| + |data| < TWO_32
    ensures ParseUpload(EncodeUpload(name, data)) ==
            if ValidName(name) then Upload(name, data) else Reject(ERR_FORBIDDEN, "invalid filename")
  {
    UploadFieldsRead(name, data);
    UploadFields(name, data);
    ResolveAcceptsValidNames(name);
  }

  /** The server takes a payload for an upload exactly when it is the encoding of that name and data. */
  lemma UploadCanonical(payload: Payload, name: Name, data: seq<byte>)
    ensures ParseUpload(payload) == Upload(name, data) <==>
            ValidName(name) && payload == EncodeUpload(name, data)
  {
    if ParseUpload(payload) == Upload(name, data) {
      UploadAccepted(payload);
    }
    if ValidName(name) && payload == EncodeUpload(name, data) {
      UploadVerdict(name, data);
    }
  }

  /** The name-only requests are canonical too; so is chmod. */
  lemma NameCanonical(payload: Payload, name: Name, tooShort: string, malformed: string)
    ensures ParseName(payload, tooShort, malformed) == Download(name) <==>
            ValidName(name) && payload == EncodeName(name)
  {
    if ParseName(payload, tooShort, malformed) == Download(name) {
      ResolveAcceptsValidNames(name);
      assert payload == payload[..2] + payload[2..];
    } else if ValidName(name) && payload == EncodeName(name) {
      assert payload[..2] == Big(2, |name|) && payload[2..] == name;
      Widths();
      PrintInjective(2, Read16(payload[..2]), |name|);
      ResolveAcceptsValidNames(name);
    }
  }

  lemma ChmodCanonical(payload: Payload, name: Name, mode: u32)
    ensures ParseChmod(payload) == Chmod(name, mode) <==>
            ValidName(name) && payload == EncodeChmod(name, mode)
  {
    var o := 2 + |name|;
    if ParseChmod(payload) == Chmod(name, mode) {
      ResolveAcceptsValidNames(name);
      assert payload == payload[..2] + payload[2..o] + payload[o..];
    } else if ValidName(name) && payload == EncodeChmod(name, mode) {
      assert payload[..2] == Big(2, |name|) && payload[2..o] == name && payload[o..] == Big(4, mode);
      Widths();
      PrintInjective(2, Read16(payload[..2]), |name|);
      PrintInjective(4, Read32(payload[o..]), mode);
      ResolveAcceptsValidNames(name);
    }
  }

  /** The opcode of a request that parses. */
  function OpcodeOf(r: Request): u16
    requires !r.Reject?
  {
    match r
    case Upload(_, _) => REQ_UPLOAD
    case Download(_) => REQ_DOWNLOAD
    case Delete(_) => REQ_DELETE
    case Chmod(_, _) => REQ_CHMOD
    case List => REQ_LIST
  }

  /** The payload of a request that parses; a listing takes any. */
  predicate Encodes(payload: Payload, r: Request)
    requires !r.Reject?
  {
    match r
    case Upload(name, data) => ValidName(name) && payload == EncodeUpload(name, data)
    case Download(name) => ValidName(name) && payload == EncodeName(name)
    case Delete(name) => ValidName(name) && payload == EncodeName(name)
    case Chmod(name, mode) => ValidName(name) && payload == EncodeChmod(name, mode)
    case List => true
  }

  /** Each parser makes its own kind of request, or refuses. */
  lemma UploadKind(payload: Payload)
    ensures ParseUpload(payload).Upload? || ParseUpload(payload).Reject?
  {
  }

  lemma NameKinds(payload: Payload)
    ensures ParseDownload(payload).Download? || ParseDownload(payload).Reject?
    ensures ParseDelete(payload).Delete? || ParseDelete(payload).Reject?
  {
  }

  lemma ChmodKind(payload: Payload)
    ensures ParseChmod(payload).Chmod? || ParseChmod(payload).Reject?
  {
  }

  lemma ParsedHasItsOpcode(opcode: u16, payload: Payload)
    requires !ParseRequest(opcode, payload).Reject?
    ensures opcode == OpcodeOf(ParseRequest(opcode, payload))
  {
    if opcode == REQ_UPLOAD {
      UploadKind(payload);
    } else if opcode == REQ_CHMOD {
      ChmodKind(payload);
    } else {
      NameKinds(payload);
    }
  }

  lemma ParsesByOpcode(payload: Payload, r: Request)
    requires !r.Reject?
    ensures ParseRequest(OpcodeOf(r), payload) == r <==> Encodes(payload, r)
  {
    if r.Upload? {
      UploadCanonical(payload, r.name, r.data);
    } else if r.Download? {
      NameCanonical(payload, r.name, "download payload too short", "download payload malformed");
    } else if r.Delete? {
      NameCanonical(payload, r.name, "delete payload too short", "delete payload malformed");
    } else if r.Chmod? {
      ChmodCanonical(payload, r.name, r.mode);
    }
  }

  /** Every opcode: which payloads lead to which request. */
  lemma ParseIsCanonical(opcode: u16, payload: Payload, r: Request)
    requires !r.Reject?
    ensures ParseRequest(opcode, payload) == r <==> opcode == OpcodeOf(r) && Encodes(payload, r)
  {
    if ParseRequest(opcode, payload) == r {
      ParsedHasItsOpcode(opcode, payload);
    }
    ParsesByOpcode(payload, r);
  }

  // ---------------------------------------------------------------- every verdict

  /** The two length bytes a payload starts with. */
  function NameLength(payload: Payload): nat
    requires |payload| >= 2
  {
    Value(payload[..2])
  }

  /** The size field of an upload payload that is long enough to have one. */
  function SizeField(payload: Payload): nat
    requires |payload| >= 2 && |payload| >= 10 + NameLength(payload)
  {
    Value(payload[2 + NameLength(payload)..10 + NameLength(payload)])
  }

  /** Which upload payloads are refused with which code and text, in numbers that do not wrap. */
  lemma UploadRefusals(payload: Payload)
    ensures var r, len := ParseRequest(0x01, payload), |payload|;
            && (r == Reject(400, "upload payload too short") <==> len < 2)
            && (r == Reject(400, "upload payload truncated") <==> 2 <= len < 10 + NameLength(payload))
            && (r == Reject(400, "declared file size does not match payload") <==>
                  len >= 2 && len >= 10 + NameLength(payload) && len != 10 + NameLength(payload) + SizeField(payload))
            && (r == Reject(403, "invalid filename") <==>
                  && len >= 2 && len >= 10 + NameLength(payload) && len == 10 + NameLength(payload) + SizeField(payload)
                  && !ValidName(payload[2..2 + NameLength(payload)]))
  {
    if |payload| >= 2 && |payload| >= 10 + NameLength(payload) {
      ResolveAcceptsValidNames(payload[2..2 + NameLength(payload)]);
    }
  }

  /** The refusals of a name-only payload. */
  predicate NameRefusals(payload: Payload, r: Request, tooShort: string, malformed: string) {
    && (r == Reject(400, tooShort) <==> |payload| < 2)
    && (r == Reject(400, malformed) <==> |payload| >= 2 && |payload| != 2 + NameLength(payload))
    && (r == Reject(403, "invalid filename") <==>
          |payload| >= 2 && |payload| == 2 + NameLength(payload) && !ValidName(payload[2..]))
  }

  lemma ParseNameRefusals(payload: Payload, tooShort: string, malformed: string)
    requires tooShort != malformed
    ensures NameRefusals(payload, ParseName(payload, tooShort, malformed), tooShort, malformed)
  {
    if |payload| >= 2 {
      ResolveAcceptsValidNames(payload[2..]);
    }
  }

  lemma DownloadRefusals(payload: Payload)
    ensures NameRefusals(payload, ParseRequest(0x02, payload), "download payload too short", "download payload malformed")
  {
    assert |"download payload too short"| != |"download payload malformed"|
           || "download payload too short"[17] != "download payload malformed"[17];
    ParseNameRefusals(payload, "download payload too short", "download payload malformed");
  }

  lemma DeleteRefusals(payload: Payload)
    ensures NameRefusals(payload, ParseRequest(0x04, payload), "delete payload too short", "delete payload malformed")
  {
    assert "delete payload too short"[15] != "delete payload malformed"[15];
    ParseNameRefusals(payload, "delete payload too short", "delete payload malformed");
  }

  lemma ChmodRefusals(payload: Payload)
    ensures var r, len := ParseRequest(0x05, payload), |payload|;
            && (r == Reject(400, "chmod payload too short") <==> len < 2)
            && (r == Reject(400, "chmod payload malformed") <==> len >= 2 && len != 6 + NameLength(payload))
            && (r == Reject(403, "invalid filename") <==>
                  && len >= 2 && len == 6 + NameLength(payload) && !ValidName(payload[2..2 + NameLength(payload)]))
  {
    assert "chmod payload too short"[14] != "chmod payload malformed"[14];
    if |payload| >= 2 && |payload| >= 2 + NameLength(payload) {
      ResolveAcceptsValidNames(payload[2..2 + NameLength(payload)]);
    }
  }

  /** LIST takes any payload, and no other opcode is known. */
  lemma OtherOpcodes(opcode: u16, payload: Payload)
    ensures ParseRequest(opcode, payload) == List <==> opcode == 0x03
    ensures ParseRequest(opcode, payload) == Reject(400, "unknown opcode") <==> opcode == 0 || opcode > 0x05
  {
    if 1 <= opcode <= 5 && ParseRequest(opcode, payload).Reject? {
      KnownOpcodes(opcode, payload);
    }
  }

  lemma KnownOpcodes(opcode: u16, payload: Payload)
    requires 1 <= opcode <= 5 && ParseRequest(opcode, payload).Reject?
    ensures |ParseRequest(opcode, payload).msg| > 14
  {
  }

  /** Parsing never lets through a bad name or a file too large for the 32-bit reply length. */
  lemma ParsedIsWellFormed(opcode: u16, payload: Payload)
    ensures WellFormed(ParseRequest(opcode, payload))
  {
    var r := ParseRequest(opcode, payload);
    if !r.Reject? {
      ParseIsCanonical(opcode, payload, r);
    }
  }

  // ---------------------------------------------------------------- replies

  /** One response: `send_message` with its opcode, elapsed microseconds and body. */
  datatype Reply = Reply(opcode: u16, elapsed: u64, body: seq<byte>)

  function ReplyHeader(r: Reply): Header {
    Header(MAGIC, VERSION, r.opcode, Wrap32(|r.body|), r.elapsed)
  }

  /** The bytes of a whole response on the wire. */
  function Frame(r: Reply): seq<byte> {
    SerializeHeader(ReplyHeader(r)) + r.body
  }

  function Ascii(msg: string): (s: seq<byte>)
    ensures |s| == |msg|
  {
    seq(|msg|, i requires 0 <= i < |msg| => msg[i] as int % 128)
  }

  function OkReply(elapsed: u64): Reply {
    Reply(RESP_OK, elapsed, [])
  }

  /** `send_error`. */
  function ErrReply(code: u16, msg: string): Reply {
    Reply(RESP_ERR, 0, Big(2, code) + Big(2, |msg|) + Ascii(msg))
  }

  function FileReply(elapsed: u64, data: seq<byte>): Reply {
    Reply(RESP_FILE_DATA, elapsed, Big(8, |data|) + data)
  }

  /** The three measured phases of an upload, and the 64-bit sum the header carries. */
  datatype Times = Times(network: u64, write: u64, sync: u64)

  function UploadReply(t: Times): Reply {
    Reply(RESP_OK, (t.network + t.write + t.sync) % TWO_64,
          Big(8, t.network) + Big(8, t.write) + Big(8, t.sync))
  }

  /** A receiver recovers any reply whose body fits the 32-bit length, from any stream that starts with its frame. */
  lemma FrameRoundTrip(r: Reply, rest: seq<byte>)
    requires |r.body| < TWO_32
    ensures var s := Frame(r) + rest;
            ParseHeader(s) == Some(Header(MAGIC, VERSION, r.opcode, |r.body|, r.elapsed)) &&
            s[HEADER_SIZE..HEADER_SIZE + |r.body|] == r.body
  {
    HeaderRoundTrip(ReplyHeader(r), r.body + rest);
    assert Frame(r) + rest == SerializeHeader(ReplyHeader(r)) + (r.body + rest);
  }
}
