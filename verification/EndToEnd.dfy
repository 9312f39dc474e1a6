/**
  From one client to the other: an upload that was answered with success, then a download of the same name, give
  back exactly the uploaded bytes, for every cut of every stream and every schedule of the server in between.
*/
module EndToEnd {
  import opened Bytes
  import opened Protocol
  import opened Payloads
  import opened LockRules
  import opened Server
  import opened LockSafety
  import opened Atomicity
  import opened Traces
  import opened Linearizability
  import opened Bridge
  import opened Clients
  import opened WholeFiles

  /** The job the select loop and a worker make of what a client sent. */
  predicate ServerGot(job: Job, sent: seq<byte>) {
    Accepted(sent) == Incoming.Request(job.opcode, job.payload)
  }

  /** The upload request both clients put on the wire. */
  function UploadRequest(name: Name, data: seq<byte>): seq<byte>
    requires |EncodeUpload(name, data)| < TWO_32
  {
    RequestBytes(REQ_UPLOAD, EncodeUpload(name, data))
  }

  /** The download request both clients put on the wire. */
  function DownloadRequest(name: Name): seq<byte>
    requires |name| < TWO_16
  {
    RequestBytes(REQ_DOWNLOAD, EncodeName(name))
  }

  /** A request of a client is the same request in the server, whatever follows it on the connection. */
  lemma UploadIsUnderstood(job: Job, name: Name, data: seq<byte>, rest: seq<byte>)
    requires ValidName(name) && |EncodeUpload(name, data)| < TWO_32
    requires ServerGot(job, UploadRequest(name, data) + rest)
    ensures RequestOf(job) == Upload(name, data) && |data| <= MAX_FILE
  {
    RequestArrives(REQ_UPLOAD, EncodeUpload(name, data), rest);
    ParseIsCanonical(job.opcode, job.payload, Upload(name, data));
  }

  lemma DownloadIsUnderstood(job: Job, name: Name, rest: seq<byte>)
    requires ValidName(name) && ServerGot(job, DownloadRequest(name) + rest)
    ensures RequestOf(job) == Download(name)
  {
    RequestArrives(REQ_DOWNLOAD, EncodeName(name), rest);
    ParseIsCanonical(job.opcode, job.payload, Download(name));
  }

  /** A response a client could resolve from the start of a frame has that frame's opcode. */
  lemma ResolvedOpcode(out: seq<byte>, r: Reply, ends: bool)
    requires out <= Frame(r) && Settlement(out, ends).Resolved?
    ensures Settlement(out, ends).header.opcode == r.opcode && out != []
  {
    var rest := Frame(r)[|out|..];
    assert Frame(r) == out + rest;
    JudgeIsFinal(out, rest);
    HeaderRoundTrip(ReplyHeader(r), r.body);
  }

  /** Once a response resolves from the start of a frame, the whole frame is there. */
  lemma ResolvedIsWhole(out: seq<byte>, r: Reply, ends: bool)
    requires out <= Frame(r) && Settlement(out, ends).Resolved? && |r.body| < TWO_32
    ensures out == Frame(r)
  {
    var rest := Frame(r)[|out|..];
    assert Frame(r) == out + rest;
    JudgeIsFinal(out, rest);
    FrameJudged(r, []);
    assert Frame(r) + [] == Frame(r);
  }

  // ---------------------------------------------------------------- what the uploader can tell

  /** What either client reports when the server could not open the file. */
  const OPEN_FAILED := ServerError(ERR_INTERNAL, Ascii("failed to open file"))

  /** `Whole`, read off the result of the upload. */
  predicate ToldWhole(before: Option<seq<byte>>, data: seq<byte>, result: Result) {
    || result.Success?
    || (data == [] && result != OPEN_FAILED)
    || (result == OPEN_FAILED && before == Some(data))
  }

  lemma MessagesDiffer()
    ensures OPEN_FAILED != ServerError(ERR_INTERNAL, Ascii("failed to lock file"))
    ensures OPEN_FAILED != ServerError(ERR_INTERNAL, Ascii("failed to write file body"))
  {
    assert OPEN_FAILED.msg[10] == 111 && Ascii("failed to lock file")[10] == 108;
    assert |OPEN_FAILED.msg| == 19 && |Ascii("failed to write file body")| == 25;
  }

  /** Both clients report the same about an error response they resolved: its code and its message. */
  lemma ErrorSeen(out: seq<byte>, msg: string, ends: bool)
    requires 0 < |msg| < 64 && out <= Frame(ErrReply(ERR_INTERNAL, msg)) && Settlement(out, ends).Resolved?
    ensures UploadedInJs(Settlement(out, ends)) == SimpleOf(out) == ServerError(ERR_INTERNAL, Ascii(msg))
  {
    ResolvedIsWhole(out, ErrReply(ERR_INTERNAL, msg), ends);
    assert out + [] == out;
    ErrorRoundTrip(ERR_INTERNAL, msg, [], ends);
  }

  /** Both clients report the same about the response to a delete or a chmod: OK with its time, or not found. */
  lemma DoneSeen(out: seq<byte>, reply: Reply, ends: bool)
    requires out <= Frame(reply) && Settlement(out, ends).Resolved?
    requires Plain(reply)
    ensures DoneInJs(Settlement(out, ends)) == SimpleOf(out)
    ensures reply == NotFound() ==> SimpleOf(out) == ServerError(404, Ascii("file not found"))
    ensures reply != NotFound() ==> SimpleOf(out) == Success(reply.elapsed, None)
  {
    ResolvedIsWhole(out, reply, ends);
    assert out + [] == out;
    if reply == NotFound() {
      ErrorRoundTrip(404, "file not found", [], ends);
      ErrorDone(404, "file not found", [], ends);
    } else {
      OkRoundTrip(reply.elapsed, [], ends);
    }
  }

  lemma SuccessSeen(out: seq<byte>, t: Times, ends: bool)
    requires out <= Frame(UploadReply(t)) && Settlement(out, ends).Resolved?
    ensures UploadedInJs(Settlement(out, ends)) == SimpleOf(out) && SimpleOf(out).Success?
  {
    ResolvedIsWhole(out, UploadReply(t), ends);
    assert out + [] == out;
    UploadedRoundTrip(t, [], ends);
  }

  /** A client that got a whole response to an upload knows which of its four outcomes it was. */
  lemma UploadReplySeen(out: seq<byte>, reply: Reply, ends: bool, before: Option<seq<byte>>, data: seq<byte>)
    requires out <= Frame(reply) && Settlement(out, ends).Resolved?
    requires (exists t: Times :: reply == UploadReply(t)) || reply in {OpenFailed(), LockFailed(), WriteFailed()}
    ensures UploadedInJs(Settlement(out, ends)) == SimpleOf(out)
    ensures ToldWhole(before, data, SimpleOf(out)) <==> Whole(before, data, reply)
  {
    ErrorsDiffer();
    MessagesDiffer();
    if reply == OpenFailed() {
      ErrorSeen(out, "failed to open file", ends);
    } else if reply == LockFailed() {
      ErrorSeen(out, "failed to lock file", ends);
    } else if reply == WriteFailed() {
      ErrorSeen(out, "failed to write file body", ends);
    } else {
      var t :| reply == UploadReply(t);
      SuccessSeen(out, t, ends);
    }
  }

  lemma LegalUploadReply(a: Store, name: Name, data: seq<byte>, reply: Reply, e: Effect)
    requires Legal(a, Upload(name, data), reply, e)
    ensures (exists t: Times :: reply == UploadReply(t)) || reply in {OpenFailed(), LockFailed(), WriteFailed()}
  {
  }

  /**
    What an upload's client may conclude from its response, in every reachable state: the file was all of its
    data at the upload's commit if and only if the response says so.
  */
  lemma UploaderKnows(start: State, acts: seq<Action>, s: State, u: nat, name: Name, data: seq<byte>, ends: bool)
      returns (k: nat)
    requires Init(start) && Runs(start, acts, s)
    requires u < |s.jobs| && u < |s.out| && RequestOf(s.jobs[u]) == Upload(name, data)
    requires Settlement(s.out[u], ends).Resolved?
    ensures k < |s.log| && s.log[k].Committed? && s.log[k].id == u && s.log[k].req == Upload(name, data)
    ensures UploadedInJs(Settlement(s.out[u], ends)) == SimpleOf(s.out[u])
    ensures var a := Replay(View(start.fs), s.log[..k]);
            && (Whole(DataIn(a, name), data, s.log[k].reply) <==> ToldWhole(DataIn(a, name), data, SimpleOf(s.out[u])))
            && (DataIn(Replay(View(start.fs), s.log[..k + 1]), name) == Some(data) <==>
                  ToldWhole(DataIn(a, name), data, SimpleOf(s.out[u])))
  {
    var a0 := View(start.fs);
    Reachable(start, acts, s);
    assert s.out[u] != [];
    k := BytesAreCommitted(a0, s, u);
    var a := Replay(a0, s.log[..k]);
    LegalUploadReply(a, name, data, s.log[k].reply, s.log[k].effect);
    UploadReplySeen(s.out[u], s.log[k].reply, ends, DataIn(a, name), data);
    UploadIsWhole(start, acts, s, k);
  }

  lemma ResolvedIsNotEmpty(out: seq<byte>, ends: bool)
    requires Settlement(out, ends).Resolved?
    ensures out != []
  {
  }

  /** A client with a whole response has the start of the one committed reply to its request. */
  lemma AnsweredCommit(start: State, acts: seq<Action>, s: State, u: nat, ends: bool) returns (k: nat)
    requires Init(start) && Runs(start, acts, s) && u < |s.jobs| && u < |s.out| && Settlement(s.out[u], ends).Resolved?
    ensures k < |s.log| && s.log[k].Committed? && s.log[k].id == u && s.log[k].req == RequestOf(s.jobs[u])
    ensures s.out[u] <= Frame(s.log[k].reply)
    ensures Legal(Replay(View(start.fs), s.log[..k]), s.log[k].req, s.log[k].reply, s.log[k].effect)
    ensures Replay(View(start.fs), s.log[..k + 1]) == Apply(Replay(View(start.fs), s.log[..k]), s.log[k].effect)
  {
    Reachable(start, acts, s);
    ResolvedIsNotEmpty(s.out[u], ends);
    k := BytesAreCommitted(View(start.fs), s, u);
    ReplayOne(View(start.fs), s.log, k);
  }

  predicate Plain(reply: Reply) {
    reply == NotFound() || reply == OkReply(reply.elapsed)
  }

  lemma LegalDelete(a: Store, name: Name, reply: Reply, e: Effect)
    requires Legal(a, Delete(name), reply, e)
    ensures Plain(reply)
    ensures if reply == NotFound() then Apply(a, e) == a else name in a && Apply(a, e) == a - {name}
  {
  }

  lemma LegalChmod(a: Store, name: Name, mode: u32, reply: Reply, e: Effect)
    requires Legal(a, Chmod(name, mode), reply, e)
    ensures Plain(reply)
    ensures if reply == NotFound() then Apply(a, e) == a
            else name in a && Apply(a, e) == a[name := File(a[name].data, mode % 0x1000)]
  {
  }

  /**
    What a delete's client may conclude, in every reachable state: it is told success exactly when the file was
    there and its delete removed it, and "not found" exactly when nothing was done.
  */
  lemma DeleterKnows(start: State, acts: seq<Action>, s: State, u: nat, name: Name, ends: bool) returns (k: nat)
    requires Init(start) && Runs(start, acts, s)
    requires u < |s.jobs| && u < |s.out| && RequestOf(s.jobs[u]) == Delete(name)
    requires Settlement(s.out[u], ends).Resolved?
    ensures k < |s.log| && s.log[k].Committed? && s.log[k].id == u && s.log[k].req == Delete(name)
    ensures DoneInJs(Settlement(s.out[u], ends)) == SimpleOf(s.out[u])
    ensures var before, after := Replay(View(start.fs), s.log[..k]), Replay(View(start.fs), s.log[..k + 1]);
            if SimpleOf(s.out[u]).Success? then name in before && after == before - {name}
            else SimpleOf(s.out[u]) == ServerError(404, Ascii("file not found")) && after == before
  {
    k := AnsweredCommit(start, acts, s, u, ends);
    LegalDelete(Replay(View(start.fs), s.log[..k]), name, s.log[k].reply, s.log[k].effect);
    DoneSeen(s.out[u], s.log[k].reply, ends);
  }

  /** What a chmod's client may conclude: success exactly when the file was there and got the mode, and nothing else. */
  lemma ChmodderKnows(start: State, acts: seq<Action>, s: State, u: nat, name: Name, mode: u32, ends: bool)
      returns (k: nat)
    requires Init(start) && Runs(start, acts, s)
    requires u < |s.jobs| && u < |s.out| && RequestOf(s.jobs[u]) == Chmod(name, mode)
    requires Settlement(s.out[u], ends).Resolved?
    ensures k < |s.log| && s.log[k].Committed? && s.log[k].id == u && s.log[k].req == Chmod(name, mode)
    ensures DoneInJs(Settlement(s.out[u], ends)) == SimpleOf(s.out[u])
    ensures var before, after := Replay(View(start.fs), s.log[..k]), Replay(View(start.fs), s.log[..k + 1]);
            if SimpleOf(s.out[u]).Success?
            then name in before && after == before[name := File(before[name].data, mode % 0x1000)]
            else SimpleOf(s.out[u]) == ServerError(404, Ascii("file not found")) && after == before
  {
    k := AnsweredCommit(start, acts, s, u, ends);
    LegalChmod(Replay(View(start.fs), s.log[..k]), name, mode, s.log[k].reply, s.log[k].effect);
    DoneSeen(s.out[u], s.log[k].reply, ends);
  }

  // ---------------------------------------------------------------- upload, then download

  /** What a download that was answered with file data has read, where it was committed. */
  lemma DownloadCommit(a0: Store, s: State, d: nat, name: Name, ends: bool) returns (m: nat)
    requires Inv(a0, s) && d < |s.jobs| && d < |s.out| && RequestOf(s.jobs[d]) == Download(name)
    requires Settlement(s.out[d], ends).Resolved? && Settlement(s.out[d], ends).header.opcode == RESP_FILE_DATA
    ensures m < |s.log| && s.log[m].Committed? && s.log[m].id == d && s.log[m].req == Download(name)
    ensures s.log[m].reply.opcode == RESP_FILE_DATA && s.out[d] <= Frame(s.log[m].reply)
  {
    assert s.out[d] != [];
    m := BytesAreCommitted(a0, s, d);
    ResolvedOpcode(s.out[d], s.log[m].reply, ends);
  }

  /** Both clients get the file out of a response they resolved. */
  lemma SentFileSeen(s: State, d: nat, elapsed: u64, bytes: seq<byte>, ends: bool)
    requires |bytes| <= MAX_FILE && d < |s.out| && s.out[d] <= Frame(FileReply(elapsed, bytes))
    requires Settlement(s.out[d], ends).Resolved?
    ensures DownloadInJs(Settlement(s.out[d], ends)) == DownloadOf(s.out[d]) == FileData(bytes)
  {
    ResolvedIsWhole(s.out[d], FileReply(elapsed, bytes), ends);
    assert s.out[d] + [] == s.out[d];
    DownloadRoundTrip(elapsed, bytes, [], ends);
  }

  /** A commit in a longer log of a job that was answered before is the commit it had then. */
  lemma SameCommit(a0: Store, s: State, t: State, k: nat, k': nat)
    requires Inv(a0, t) && s.log <= t.log && k < |t.log| && k' < |s.log|
    requires t.log[k].Committed? && s.log[k'].Committed? && t.log[k].id == s.log[k'].id
    ensures k == k' && t.log[k] == s.log[k] && t.log[..k] == s.log[..k]
  {
    assert t.log[k'] == s.log[k'];
    CommitInside(a0, t, k, k');
  }

  /** What the uploader was told in `s` is still what the commit of its upload says in `t`. */
  lemma UploadSeenLater(start: State, acts: seq<Action>, s: State, t: State,
                        name: Name, data: seq<byte>, u: nat, k: nat, ends: bool)
    requires Init(start) && Runs(start, acts, s) && Inv(View(start.fs), t) && s.log <= t.log
    requires u < |s.jobs| && u < |s.out| && RequestOf(s.jobs[u]) == Upload(name, data)
    requires Settlement(s.out[u], ends).Resolved?
    requires k < |t.log| && t.log[k].Committed? && t.log[k].id == u
    ensures k < |s.log| && t.log[k].req == Upload(name, data)
    ensures UploadedInJs(Settlement(s.out[u], ends)) == SimpleOf(s.out[u])
    ensures var before := DataIn(Replay(View(start.fs), t.log[..k]), name);
            Whole(before, data, t.log[k].reply) <==> ToldWhole(before, data, SimpleOf(s.out[u]))
  {
    var k' := UploaderKnows(start, acts, s, u, name, data, ends);
    SameCommit(View(start.fs), s, t, k, k');
  }

  lemma DownloadSeenLater(a0: Store, s: State, t: State, name: Name, d: nat, m: nat, ends: bool)
    requires Inv(a0, s) && Inv(a0, t) && s.log <= t.log && |s.jobs| <= d < |t.jobs| && d < |t.out|
    requires RequestOf(t.jobs[d]) == Download(name)
    requires Settlement(t.out[d], ends).Resolved? && Settlement(t.out[d], ends).header.opcode == RESP_FILE_DATA
    requires m < |t.log| && t.log[m].Committed? && t.log[m].id == d
    ensures |s.log| <= m && t.log[m].req == Download(name) && t.log[m].reply.opcode == RESP_FILE_DATA
    ensures t.out[d] <= Frame(t.log[m].reply)
  {
    var m' := DownloadCommit(a0, t, d, name, ends);
    CommitInside(a0, t, m, m');
    LaterJobLaterEvents(a0, s, t, d, m);
  }

  /** A download that finds the file as an upload left it, seen by both clients. */
  lemma FileAsUploadedSeen(start: State, acts: seq<Action>, t: State, k: nat, m: nat, d: nat, ends: bool)
    requires Init(start) && Runs(start, acts, t) && k < m < |t.log|
    requires t.log[k].Committed? && t.log[k].req.Upload?
    requires t.log[m].Committed? && t.log[m].req == Download(t.log[k].req.name)
    requires t.log[m].reply.opcode == RESP_FILE_DATA && NoRewrite(t.log, k, m, t.log[k].req.name)
    requires d < |t.out| && t.out[d] <= Frame(t.log[m].reply) && Settlement(t.out[d], ends).Resolved?
    ensures DownloadInJs(Settlement(t.out[d], ends)) == DownloadOf(t.out[d])
    ensures DownloadOf(t.out[d]) == FileData(t.log[k].req.data) <==>
            Whole(DataIn(Replay(View(start.fs), t.log[..k]), t.log[k].req.name), t.log[k].req.data, t.log[k].reply)
  {
    var elapsed, bytes := DownloadIsWhole(start, acts, t, k, m);
    StoreFits(start, acts, t, m);
    SentFileSeen(t, d, elapsed, bytes, ends);
  }

  /**
    The end-to-end law of the system. A client uploads `data` under a valid name and resolves some response; later
    a client submits a download of that name and resolves a file; no other upload and no delete of that name takes
    effect between the two commits `k` and `m`. Then both clients' decoders return the same bytes, and these are
    exactly `data` if and only if the upload's response said so, as success does.
  */
  lemma UploadThenDownload(
      start: State, acts: seq<Action>, s: State, acts': seq<Action>, t: State,
      name: Name, data: seq<byte>, u: nat, d: nat, k: nat, m: nat, rest: seq<byte>, rest': seq<byte>,
      ends: bool, ends': bool)
    requires Init(start) && Runs(start, acts, s) && Runs(s, acts', t)
    requires ValidName(name) && |EncodeUpload(name, data)| < TWO_32
    // the upload was received, served, and answered before the state `s`
    requires u < |s.jobs| && u < |s.out| && ServerGot(s.jobs[u], UploadRequest(name, data) + rest)
    requires Settlement(s.out[u], ends).Resolved?
    // the download was submitted after that, and answered with file data
    requires |s.jobs| <= d < |t.jobs| && d < |t.out|
    requires ServerGot(t.jobs[d], DownloadRequest(name) + rest')
    requires Settlement(t.out[d], ends').Resolved? && Settlement(t.out[d], ends').header.opcode == RESP_FILE_DATA
    // where the two were committed, and that nothing rewrote the file in between
    requires k < |t.log| && t.log[k].Committed? && t.log[k].id == u
    requires m < |t.log| && t.log[m].Committed? && t.log[m].id == d && NoRewrite(t.log, k, m, name)
    ensures DownloadInJs(Settlement(t.out[d], ends')) == DownloadOf(t.out[d])
    ensures DownloadOf(t.out[d]) == FileData(data) <==>
            ToldWhole(DataIn(Replay(View(start.fs), t.log[..k]), name), data, SimpleOf(s.out[u]))
    ensures UploadedInJs(Settlement(s.out[u], ends)).Success? ==> DownloadOf(t.out[d]) == FileData(data)
  {
    Reachable(start, acts, s);
    RunKeepsInv(View(start.fs), s, acts', t);
    UploadIsUnderstood(s.jobs[u], name, data, rest);
    DownloadIsUnderstood(t.jobs[d], name, rest');
    UploadSeenLater(start, acts, s, t, name, data, u, k, ends);
    DownloadSeenLater(View(start.fs), s, t, name, d, m, ends');
    RunsAppend(start, acts, s, acts', t);
    FileAsUploadedSeen(start, acts + acts', t, k, m, d, ends');
  }
}
