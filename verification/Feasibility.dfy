/**
  Runs that show what can happen, on every server: every valid upload can succeed and be downloaded whole, and every
  one can be cut short anywhere and then be downloaded half-written.
*/
module Feasibility {
  import opened Bytes
  import opened Protocol
  import opened Payloads
  import opened LockRules
  import opened Server
  import opened Atomicity
  import opened Traces
  import opened Linearizability
  import opened Bridge
  import opened Clients
  import opened EndToEnd
  import opened Shutdown
  import opened Paths
  import opened WholeFiles

  /** Some inode number is not in use. */
  lemma {:induction false} FreeInode(used: set<Ino>) returns (ino: Ino)
    ensures forall i :: i in used ==> i < ino
  {
    if used == {} {
      ino := 0;
    } else {
      var i :| i in used;
      var other := FreeInode(used - {i});
      ino := if i < other then other else i + 1;
      assert forall j :: j in used ==> j == i || j in used - {i};
    }
  }

  const IDLE := Times(0, 0, 0)

  /** Worker 0 is free, and nobody holds the name. */
  predicate AtRest(s: State, name: Name) {
    && Awake(s) && s.workers != [] && s.workers[0] == Checking && EntryAt(s.locks, name) == FREE
    && |s.out| == |s.jobs|
  }

  /** Worker 0 is at `stage` of the newest job, which has been sent `sent`. */
  predicate Working(s: State, req: Request, stage: Stage, e: Entry, sent: seq<byte>)
    requires HoldOf(req).Some?
  {
    && Awake(s) && s.workers != [] && 0 < |s.jobs| == |s.out|
    && s.workers[0] == Handling(|s.jobs| - 1, req, stage)
    && EntryAt(s.locks, HoldOf(req).value.name) == e && s.out[|s.jobs| - 1] == sent
  }

  // what the server makes of the four payloads that take a lock

  lemma UploadJob(name: Name, data: seq<byte>)
    requires ValidName(name) && |EncodeUpload(name, data)| < TWO_32
    ensures var job := Job(REQ_UPLOAD, EncodeUpload(name, data));
            RequestOf(job) == Upload(name, data) && |job.payload| > 0 && |data| <= MAX_FILE
  {
    ParseIsCanonical(REQ_UPLOAD, EncodeUpload(name, data), Upload(name, data));
  }

  lemma DownloadJob(name: Name)
    requires ValidName(name)
    ensures var job := Job(REQ_DOWNLOAD, EncodeName(name)); RequestOf(job) == Download(name) && |job.payload| > 0
  {
    ParseIsCanonical(REQ_DOWNLOAD, EncodeName(name), Download(name));
  }

  lemma DeleteJob(name: Name)
    requires ValidName(name)
    ensures var job := Job(REQ_DELETE, EncodeName(name)); RequestOf(job) == Delete(name) && |job.payload| > 0
  {
    ParseIsCanonical(REQ_DELETE, EncodeName(name), Delete(name));
  }

  lemma ChmodJob(name: Name, mode: u32)
    requires ValidName(name)
    ensures var job := Job(REQ_CHMOD, EncodeChmod(name, mode)); RequestOf(job) == Chmod(name, mode) && |job.payload| > 0
  {
    ParseIsCanonical(REQ_CHMOD, EncodeChmod(name, mode), Chmod(name, mode));
  }

  lemma Begin(s: State, p: Path, job: Job) returns (q: Path)
    requires Leads(s, p) && |job.payload| > 0 && HoldOf(RequestOf(job)).Some?
    requires AtRest(p.end, HoldOf(RequestOf(job)).value.name)
    ensures Leads(s, q) && q.end.fs == p.end.fs && q.end.jobs == p.end.jobs + [job] && q.end.out == p.end.out + [[]]
    ensures var h := HoldOf(RequestOf(job)).value; Working(q.end, RequestOf(job), Locked, Grant(FREE, h.kind), [])
  {
    q := Arrive(s, p, 0, job);
    q := Next(s, q, Step(0, Acquire));
  }

  /** What an upload decides on after its one `write` took `written` bytes. */
  function WrittenReply(data: seq<byte>, written: nat): Reply {
    if written == |data| then OkReply(0) else WriteFailed()
  }

  /** The file is opened and locked, and `write` takes `written` bytes. */
  lemma WritePart(s: State, p: Path, name: Name, data: seq<byte>, written: nat) returns (q: Path)
    requires Leads(s, p) && Working(p.end, Upload(name, data), Locked, Entry(1, 0), []) && written <= |data|
    ensures Leads(s, q) && q.end.jobs == p.end.jobs && q.end.out == p.end.out
    ensures q.end.workers != [] && q.end.workers[0].Handling? && q.end.workers[0].stage.Settled?
    ensures var stage := Settled(WrittenReply(data, written), q.end.workers[0].stage.effect);
            Working(q.end, Upload(name, data), stage, Entry(1, 0), [])
    ensures name in q.end.fs.dir && Contents(q.end.fs, q.end.fs.dir[name]).data == data[..written]
  {
    var fs := p.end.fs;
    var ino := FreeInode(fs.inodes.Keys);
    if name in fs.dir {
      ino := fs.dir[name];
    }
    q := Next(s, p, Step(0, Call(OpenTrunc(true, ino))));
    assert Contents(q.end.fs, ino).data == [] && q.end.fs.dir[name] == ino;
    q := Next(s, q, Step(0, Call(FcntlLock(true))));
    q := Next(s, q, Step(0, Call(WriteBody(written))));
    assert data[..written] + [] == data[..written];
  }

  /** A reply goes out in one piece, and the worker is free again. */
  lemma SendReplyInFull(s: State, p: Path, req: Request, sent: Reply) returns (q: Path)
    requires HoldOf(req).Some? && Leads(s, p) && Working(p.end, req, Replying(sent, 0), FREE, [])
    ensures Leads(s, q) && q.end.jobs == p.end.jobs && q.end.fs == p.end.fs && AtRest(q.end, HoldOf(req).value.name)
    ensures q.end.out == p.end.out[|p.end.jobs| - 1 := Frame(sent)]
  {
    var frame := Frame(sent);
    q := Next(s, p, Step(0, SendReply(|frame|)));
    assert [] + frame[0..|frame|] == frame;
    q := Next(s, q, Step(0, Finish));
    q := Next(s, q, Step(0, CloseSocket));
  }

  /** The lock is released, and the reply goes out in one piece. */
  lemma AnswerInFull(s: State, p: Path, req: Request, reply: Reply, e: Effect) returns (q: Path)
    requires HoldOf(req).Some? && Leads(s, p)
    requires Working(p.end, req, Settled(reply, e), Grant(FREE, HoldOf(req).value.kind), [])
    ensures Leads(s, q) && q.end.jobs == p.end.jobs && q.end.fs == p.end.fs && AtRest(q.end, HoldOf(req).value.name)
    ensures q.end.out == p.end.out[|p.end.jobs| - 1 := Frame(Timed(req, reply, IDLE))]
  {
    q := Next(s, p, Step(0, Release(IDLE)));
    q := SendReplyInFull(s, q, req, Timed(req, reply, IDLE));
  }

  /** A download is sent in one piece. */
  lemma SendInFull(s: State, p: Path, name: Name, data: seq<byte>) returns (q: Path)
    requires Leads(s, p) && Working(p.end, Download(name), Locked, Entry(0, 1), []) && NamesFile(p.end.fs, name)
    requires Contents(p.end.fs, p.end.fs.dir[name]).data == data && |data| <= MAX_FILE
    ensures Leads(s, q) && q.end.jobs == p.end.jobs
    ensures q.end.out == p.end.out[|p.end.jobs| - 1 := Frame(FileReply(0, data))]
  {
    var frame := Frame(FileReply(0, data));
    ImageIsFrame(|data|, 0, data);
    q := StartSending(s, p, 0, name);
    assert |frame| == 24 + |data|;
    q := Next(s, q, Step(0, SendFile(|frame|)));
    assert [] + frame[0..|frame|] == frame;
  }

  lemma Served(job: Job, opcode: u16, payload: Payload, r: Reply)
    requires job == Job(opcode, payload) && |r.body| < TWO_32
    ensures ServerGot(job, RequestBytes(opcode, payload) + [])
    ensures Settlement(Frame(r), false).Resolved? && Settlement(Frame(r), false).header.opcode == r.opcode
  {
    RequestArrives(opcode, payload, []);
    FrameJudged(r, []);
    assert Frame(r) + [] == Frame(r);
  }

  lemma ServeUpload(start: State, job: Job, name: Name, data: seq<byte>, written: nat) returns (p: Path)
    requires Init(start) && RequestOf(job) == Upload(name, data) && |job.payload| > 0 && written <= |data|
    ensures Leads(start, p) && AtRest(p.end, name) && p.end.jobs == [job]
    ensures p.end.out == [Frame(Timed(Upload(name, data), WrittenReply(data, written), IDLE))]
    ensures name in p.end.fs.dir && Contents(p.end.fs, p.end.fs.dir[name]).data == data[..written]
  {
    p := Begin(start, Path([], start), job);
    p := WritePart(start, p, name, data, written);
    p := AnswerInFull(start, p, Upload(name, data), WrittenReply(data, written), p.end.workers[0].stage.effect);
  }

  /** A download of a file that is there, as far as its last byte. */
  lemma ServeDownload(s: State, p: Path, name: Name, data: seq<byte>) returns (q: Path)
    requires Leads(s, p) && AtRest(p.end, name) && NamesFile(p.end.fs, name)
    requires Contents(p.end.fs, p.end.fs.dir[name]).data == data && |data| <= MAX_FILE
    ensures Leads(s, q) && q.end.jobs == p.end.jobs + [Job(REQ_DOWNLOAD, EncodeName(name))]
    ensures q.end.out == p.end.out + [Frame(FileReply(0, data))]
  {
    DownloadJob(name);
    q := Begin(s, p, Job(REQ_DOWNLOAD, EncodeName(name)));
    assert p.end.out + [[]] == q.end.out;
    q := SendInFull(s, q, name, data);
  }

  /** The run: an upload of which `written` bytes are taken, served to its end, then a download of the same name. */
  lemma ServeBoth(start: State, name: Name, data: seq<byte>, written: nat) returns (p: Path, q: Path)
    requires Init(start) && ValidName(name) && |EncodeUpload(name, data)| < TWO_32 && written <= |data|
    ensures Leads(start, p) && Leads(p.end, q)
    ensures p.end.jobs == [Job(REQ_UPLOAD, EncodeUpload(name, data))]
    ensures p.end.out == [Frame(Timed(Upload(name, data), WrittenReply(data, written), IDLE))]
    ensures q.end.jobs == p.end.jobs + [Job(REQ_DOWNLOAD, EncodeName(name))]
    ensures q.end.out == p.end.out + [Frame(FileReply(0, data[..written]))]
  {
    var upload := Job(REQ_UPLOAD, EncodeUpload(name, data));
    UploadJob(name, data);
    p := ServeUpload(start, upload, name, data, written);
    q := ServeDownload(p.end, Path([], p.end), name, data[..written]);
  }

  lemma DownloadCommitsKeep(a0: Store, t: State, m: nat, name: Name)
    requires Inv(a0, t) && |t.jobs| == 2 && RequestOf(t.jobs[1]) == Download(name)
    requires m < |t.log| && t.log[m].Committed? && t.log[m].id == 1
    ensures t.log[m].effect.Keep?
  {
    CommitInside(a0, t, m, m);
    LegalAt(a0, t.log, m);
  }

  /** With only an upload and a download, what is committed besides the upload keeps every file. */
  lemma OthersOnlyRead(a0: Store, t: State, k: nat, m: nat, name: Name)
    requires Inv(a0, t) && |t.jobs| == 2 && RequestOf(t.jobs[1]) == Download(name)
    requires k < |t.log| && t.log[k].Committed? && t.log[k].id == 0
    requires m < |t.log| && t.log[m].Committed? && m != k
    ensures t.log[m].effect.Keep?
  {
    SubmittedIds(a0, t, m);
    if t.log[m].id == 0 {
      CommitInside(a0, t, k, m);
    } else {
      DownloadCommitsKeep(a0, t, m, name);
    }
  }

  /** The two commits, and nothing between them. */
  lemma BothCommits(a0: Store, t: State, name: Name) returns (k: nat, m: nat)
    requires Inv(a0, t) && |t.jobs| == |t.out| == 2 && RequestOf(t.jobs[1]) == Download(name)
    requires t.out[0] != [] && t.out[1] != []
    ensures k < |t.log| && t.log[k].Committed? && t.log[k].id == 0
    ensures m < |t.log| && t.log[m].Committed? && t.log[m].id == 1 && NoRewrite(t.log, k, m, name)
  {
    k := BytesAreCommitted(a0, t, 0);
    m := BytesAreCommitted(a0, t, 1);
    forall i | k < i < m ensures !Rewrites(t.log[i], name) {
      if t.log[i].Committed? {
        OthersOnlyRead(a0, t, k, i, name);
      }
    }
  }

  /** What the clients of the two requests hold. */
  predicate BothAnswered(s: State, t: State, name: Name, data: seq<byte>, reply: Reply, file: seq<byte>)
    requires |EncodeUpload(name, data)| < TWO_32 && |name| < TWO_16
  {
    && |s.jobs| == |s.out| == 1 && |t.jobs| == |t.out| == 2
    && ServerGot(s.jobs[0], UploadRequest(name, data) + []) && ServerGot(t.jobs[1], DownloadRequest(name) + [])
    && s.out[0] == t.out[0] == Frame(reply) && t.out[1] == Frame(FileReply(0, file))
    && Settlement(s.out[0], false).Resolved? && Settlement(s.out[0], false).header.opcode == reply.opcode
    && Settlement(t.out[1], false).Resolved? && Settlement(t.out[1], false).header.opcode == RESP_FILE_DATA
  }

  lemma ServeBothAnswered(start: State, name: Name, data: seq<byte>, written: nat) returns (p: Path, q: Path)
    requires Init(start) && ValidName(name) && |EncodeUpload(name, data)| < TWO_32 && written <= |data|
    ensures Leads(start, p) && Leads(p.end, q)
    ensures q.end.jobs == p.end.jobs + [Job(REQ_DOWNLOAD, EncodeName(name))]
    ensures BothAnswered(p.end, q.end, name, data, Timed(Upload(name, data), WrittenReply(data, written), IDLE),
                         data[..written])
  {
    p, q := ServeBoth(start, name, data, written);
    var reply := Timed(Upload(name, data), WrittenReply(data, written), IDLE);
    Served(p.end.jobs[0], REQ_UPLOAD, EncodeUpload(name, data), reply);
    Served(q.end.jobs[1], REQ_DOWNLOAD, EncodeName(name), FileReply(0, data[..written]));
  }

  /**
    Every premise of the end-to-end law can be met at once, for every server, valid name and data that fit an
    upload; and both clients then hold the data.
  */
  lemma UploadThenDownloadHappens(start: State, name: Name, data: seq<byte>)
      returns (acts: seq<Action>, s: State, acts': seq<Action>, t: State, k: nat, m: nat)
    requires Init(start) && ValidName(name) && |EncodeUpload(name, data)| < TWO_32
    ensures Runs(start, acts, s) && Runs(s, acts', t)
    ensures BothAnswered(s, t, name, data, UploadReply(IDLE), data)
    ensures k < |t.log| && t.log[k].Committed? && t.log[k].id == 0
    ensures m < |t.log| && t.log[m].Committed? && t.log[m].id == 1 && NoRewrite(t.log, k, m, name)
    ensures DownloadInJs(Settlement(t.out[1], false)) == DownloadOf(t.out[1]) == FileData(data)
  {
    var p, q := ServeBothAnswered(start, name, data, |data|);
    assert data[..|data|] == data;
    acts, s, acts', t := p.acts, p.end, q.acts, q.end;
    k, m := WholeCommits(start, acts, s, acts', t, name, data);
  }

  /** The law applied to that run. */
  lemma WholeCommits(start: State, acts: seq<Action>, s: State, acts': seq<Action>, t: State, name: Name,
                     data: seq<byte>) returns (k: nat, m: nat)
    requires Init(start) && Runs(start, acts, s) && Runs(s, acts', t)
    requires ValidName(name) && |EncodeUpload(name, data)| < TWO_32
    requires BothAnswered(s, t, name, data, UploadReply(IDLE), data)
    ensures k < |t.log| && t.log[k].Committed? && t.log[k].id == 0
    ensures m < |t.log| && t.log[m].Committed? && t.log[m].id == 1 && NoRewrite(t.log, k, m, name)
    ensures DownloadInJs(Settlement(t.out[1], false)) == DownloadOf(t.out[1]) == FileData(data)
  {
    Reachable(start, acts, s);
    RunKeepsInv(View(start.fs), s, acts', t);
    DownloadIsUnderstood(t.jobs[1], name, []);
    k, m := BothCommits(View(start.fs), t, name);
    SuccessSeen(s.out[0], IDLE, false);
    UploadThenDownload(start, acts, s, acts', t, name, data, 0, 1, k, m, [], [], false, false);
  }

  /**
    The documented promise that no half-written file is ever read fails: on every server, for every valid name,
    data and `j` short of its length, some run has an upload answered with a write failure, and then a download
    whose client, either one, holds the first `j` bytes as a complete file.
  */
  lemma HalfWrittenDownload(start: State, name: Name, data: seq<byte>, j: nat)
      returns (acts: seq<Action>, s: State, acts': seq<Action>, t: State)
    requires Init(start) && ValidName(name) && |EncodeUpload(name, data)| < TWO_32 && j < |data|
    ensures Runs(start, acts, s) && Runs(s, acts', t)
    ensures BothAnswered(s, t, name, data, WriteFailed(), data[..j])
    ensures DownloadInJs(Settlement(t.out[1], false)) == DownloadOf(t.out[1]) == FileData(data[..j])
    ensures data[..j] != data
  {
    var p, q := ServeBothAnswered(start, name, data, j);
    acts, s, acts', t := p.acts, p.end, q.acts, q.end;
    SentFileSeen(t, 1, 0, data[..j], false);
  }

  // ---------------------------------------------------------------- delete and chmod

  /** A delete of a file that is there, served to its end: the name is gone. */
  lemma ServeDelete(s: State, p: Path, name: Name) returns (q: Path)
    requires Leads(s, p) && AtRest(p.end, name) && ValidName(name) && FileAt(p.end.fs, name).Some?
    ensures Leads(s, q) && AtRest(q.end, name) && name !in q.end.fs.dir
    ensures q.end.jobs == p.end.jobs + [Job(REQ_DELETE, EncodeName(name))]
    ensures q.end.out == p.end.out + [Frame(OkReply(0))]
  {
    var job := Job(REQ_DELETE, EncodeName(name));
    DeleteJob(name);
    q := Begin(s, p, job);
    q := Next(s, q, Step(0, Call(UnlinkFile(true))));
    q := AnswerInFull(s, q, Delete(name), OkReply(0), Remove(name));
  }

  lemma ChangeMode(s: State, p: Path, name: Name, mode: u32) returns (q: Path)
    requires Leads(s, p) && Working(p.end, Chmod(name, mode), Locked, Entry(1, 0), []) && FileAt(p.end.fs, name).Some?
    ensures Leads(s, q) && q.end.jobs == p.end.jobs && q.end.out == p.end.out
    ensures q.end.workers != [] && q.end.workers[0].Handling? && q.end.workers[0].stage.Settled?
    ensures Working(q.end, Chmod(name, mode), Settled(OkReply(0), q.end.workers[0].stage.effect), Entry(1, 0), [])
    ensures FileAt(q.end.fs, name) == Some(File(FileAt(p.end.fs, name).value.data, mode % 0x1000))
  {
    q := Next(s, p, Step(0, Call(ChmodFile(true))));
  }

  /** A chmod of a file that is there, served to its end: it has its old bytes and the mode asked for. */
  lemma ServeChmod(s: State, p: Path, name: Name, mode: u32) returns (q: Path)
    requires Leads(s, p) && AtRest(p.end, name) && ValidName(name) && FileAt(p.end.fs, name).Some?
    ensures Leads(s, q) && AtRest(q.end, name)
    ensures FileAt(q.end.fs, name) == Some(File(FileAt(p.end.fs, name).value.data, mode % 0x1000))
    ensures q.end.jobs == p.end.jobs + [Job(REQ_CHMOD, EncodeChmod(name, mode))]
    ensures q.end.out == p.end.out + [Frame(OkReply(0))]
  {
    var job := Job(REQ_CHMOD, EncodeChmod(name, mode));
    ChmodJob(name, mode);
    q := Begin(s, p, job);
    q := ChangeMode(s, q, name, mode);
    q := AnswerInFull(s, q, Chmod(name, mode), OkReply(0), q.end.workers[0].stage.effect);
  }

  /** A download of a name that is not there. */
  lemma ServeMissing(s: State, p: Path, name: Name) returns (q: Path)
    requires Leads(s, p) && AtRest(p.end, name) && ValidName(name)
    ensures Leads(s, q) && AtRest(q.end, name) && q.end.fs == p.end.fs
    ensures q.end.jobs == p.end.jobs + [Job(REQ_DOWNLOAD, EncodeName(name))]
    ensures q.end.out == p.end.out + [Frame(ErrReply(404, "file not found"))]
  {
    var job := Job(REQ_DOWNLOAD, EncodeName(name));
    DownloadJob(name);
    q := Begin(s, p, job);
    q := Next(s, q, Step(0, Call(OpenRead(false))));
    q := AnswerInFull(s, q, Download(name), NotFound(), Keep);
  }

  /** What both clients make of the two answers. */
  lemma OkAndMissingSeen()
    ensures SimpleOf(Frame(OkReply(0))) == DoneInJs(Settlement(Frame(OkReply(0)), false)) == Success(0, None)
    ensures var out := Frame(ErrReply(404, "file not found"));
            DownloadOf(out) == DownloadInJs(Settlement(out, false)) == ServerError(404, Ascii("file not found"))
  {
    assert Frame(OkReply(0)) + [] == Frame(OkReply(0));
    OkRoundTrip(0, [], false);
    var error := ErrReply(404, "file not found");
    assert Frame(error) + [] == Frame(error);
    ErrorRoundTrip(404, "file not found", [], false);
  }

  /** The run: a delete served to its end, then a download of the same name. */
  lemma DeleteThenDownload(start: State, name: Name) returns (p: Path, q: Path)
    requires Init(start) && ValidName(name) && name in start.fs.dir
    ensures Leads(start, p) && Leads(p.end, q)
    ensures p.end.jobs == [Job(REQ_DELETE, EncodeName(name))] && p.end.out == [Frame(OkReply(0))]
    ensures FileAt(p.end.fs, name) == None && FileAt(q.end.fs, name) == None
    ensures q.end.jobs == p.end.jobs + [Job(REQ_DOWNLOAD, EncodeName(name))]
    ensures q.end.out == p.end.out + [Frame(ErrReply(404, "file not found"))]
  {
    p := ServeDelete(start, Path([], start), name);
    q := ServeMissing(p.end, Path([], p.end), name);
  }

  /**
    On every server, every file can be deleted: its client is told so, the name is gone from the directory, and a
    later download of it is told that there is no such file.
  */
  lemma DeleteHappens(start: State, name: Name)
      returns (acts: seq<Action>, s: State, acts': seq<Action>, t: State)
    requires Init(start) && ValidName(name) && name in start.fs.dir
    ensures Runs(start, acts, s) && Runs(s, acts', t)
    ensures s.jobs == [Job(REQ_DELETE, EncodeName(name))] && s.out == [Frame(OkReply(0))]
    ensures FileAt(s.fs, name) == None && FileAt(t.fs, name) == None
    ensures t.jobs == s.jobs + [Job(REQ_DOWNLOAD, EncodeName(name))]
    ensures t.out == s.out + [Frame(ErrReply(404, "file not found"))]
    ensures SimpleOf(s.out[0]) == DoneInJs(Settlement(s.out[0], false)) == Success(0, None)
    ensures DownloadOf(t.out[1]) == DownloadInJs(Settlement(t.out[1], false)) == ServerError(404, Ascii("file not found"))
  {
    var p, q := DeleteThenDownload(start, name);
    OkAndMissingSeen();
    acts, s, acts', t := p.acts, p.end, q.acts, q.end;
  }

  /** On every server, every file can be given any mode: its client is told so, and the directory shows it. */
  lemma ChmodHappens(start: State, name: Name, mode: u32) returns (acts: seq<Action>, s: State)
    requires Init(start) && ValidName(name) && name in start.fs.dir
    ensures Runs(start, acts, s)
    ensures s.jobs == [Job(REQ_CHMOD, EncodeChmod(name, mode))] && s.out == [Frame(OkReply(0))]
    ensures FileAt(start.fs, name).Some?
    ensures FileAt(s.fs, name) == Some(File(FileAt(start.fs, name).value.data, mode % 0x1000))
    ensures SimpleOf(s.out[0]) == DoneInJs(Settlement(s.out[0], false)) == Success(0, None)
  {
    var p := ServeChmod(start, Path([], start), name, mode);
    OkAndMissingSeen();
    acts, s := p.acts, p.end;
  }

  // ---------------------------------------------------------------- requests without a lock, start and shutdown

  /** A server can be started with any number of workers on any storage directory of files that fit. */
  lemma StartIsPossible(workers: nat, fs: Fs) returns (start: State)
    requires workers > 0 && GoodFs(fs)
    ensures Init(start) && |start.workers| == workers && start.fs == fs
  {
    start := State(true, [], seq(workers, i requires 0 <= i < workers => Checking), map[], fs, [], [], []);
  }

  /** A listing, with whatever reply its directory reading gave, and every refused request is answered in some run. */
  lemma AnswerHappens(start: State, job: Job, reply: Reply) returns (acts: seq<Action>, s: State)
    requires Init(start)
    requires var req := RequestOf(job);
             (req.List? && IsListReply(reply)) || (req.Reject? && reply == ErrReply(req.code, req.msg))
    ensures Runs(start, acts, s) && s.jobs == [job] && s.out == [Frame(reply)]
    ensures s.workers == start.workers && s.fs == start.fs && s.locks == start.locks
  {
    var frame := Frame(reply);
    var p := Arrive(start, Path([], start), 0, job);
    p := Next(start, p, Step(0, Answer(reply)));
    p := Next(start, p, Step(0, SendReply(|frame|)));
    assert [] + frame[0..|frame|] == frame;
    p := Next(start, p, Step(0, Finish));
    p := Next(start, p, Step(0, CloseSocket));
    acts, s := p.acts, p.end;
  }

  /** Workers that find the queue empty after shutdown leave, one after the other. */
  lemma {:induction false} AllLeave(s: State, p: Path, gone: nat) returns (q: Path)
    requires Leads(s, p) && !p.end.running && p.end.queue == [] && gone <= |p.end.workers|
    requires forall i :: 0 <= i < gone ==> p.end.workers[i] == Exited
    requires forall i :: gone <= i < |p.end.workers| ==> p.end.workers[i] == Checking
    ensures Leads(s, q) && q.end == p.end.(workers := q.end.workers) && |q.end.workers| == |p.end.workers|
    ensures forall i :: 0 <= i < |q.end.workers| ==> q.end.workers[i] == Exited
    decreases |p.end.workers| - gone
  {
    if gone == |p.end.workers| {
      q := p;
    } else {
      q := Next(s, p, Step(gone, Poll));
      q := AllLeave(s, q, gone + 1);
    }
  }

  /** Shutdown can come at once, and the server can end drained. */
  lemma ShutdownHappens(start: State) returns (acts: seq<Action>, s: State)
    requires Init(start)
    ensures Runs(start, acts, s) && !s.running && Drained(s)
  {
    var p := Next(start, Path([], start), Shutdown);
    assert p.end.workers == start.workers;
    var q := AllLeave(start, p, 0);
    acts, s := q.acts, q.end;
  }
}
