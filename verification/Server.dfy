/**
  The worker pool, the lock table and the storage directory as one transition system: any number of workers,
  any number of jobs and names, one step per mutex-protected region or system call (src/threadpool.c,
  src/handlers.c, src/fileops.c). Whatever the scheduler, the kernel or a peer may choose is part of the action.
*/
module Server {
  import opened Bytes
  import opened Protocol
  import opened Payloads
  import opened LockRules

  // ---------------------------------------------------------------- state

  type Ino = nat

  datatype File = File(data: seq<byte>, mode: nat)

  /** The storage directory: names lead to inodes, and a descriptor keeps its inode after an unlink. */
  datatype Fs = Fs(dir: map<Name, Ino>, inodes: map<Ino, File>)

  /** Mode of a file the server creates. */
  const CREATE_MODE := 0x1A4

  /** A queued request: header opcode and the payload the client is sending. */
  datatype Job = Job(opcode: u16, payload: Payload)

  datatype Hold = Hold(name: Name, kind: Kind)

  /** What a commit does to the atomic store. */
  datatype Effect = Keep | Put(name: Name, file: File) | Remove(name: Name)

  /** Where a worker is inside a handler. */
  datatype Stage =
    | Ready                                                      // request parsed, lock not asked for yet
    | Asleep                                                     // in pthread_cond_wait on the lock table
    | Woken                                                      // woken, about to re-check its entry
    | Locked                                                     // lock granted, nothing done yet
    | Opened(ino: Ino)                                           // upload: opened with O_TRUNC
    | Guarded(ino: Ino)                                          // upload: fcntl lock taken
    | Reading(ino: Ino)                                          // download: opened
    | Sized(ino: Ino, size: nat)                                 // download: fstat done
    | Sending(ino: Ino, size: nat, elapsed: u64, off: nat)       // download: mapped, response on its way
    | Settled(reply: Reply, effect: Effect)                      // outcome fixed, lock still held
    | Faulted                                                    // touched a mapped page past the end of the file
    | Replying(reply: Reply, off: nat)                           // response on its way, no lock held

  datatype Worker =
    | Checking                                                   // about to look at the queue
    | PoolAsleep                                                 // in pthread_cond_wait on the queue
    | PoolWoken
    | Exited
    | Receiving(id: nat, left: nat)                              // recv_full of the payload
    | Handling(id: nat, req: Request, stage: Stage)
    | Closing(id: nat)                                           // about to close the client socket

  /** What can be seen of a run; `id` is the position of the job in submission order. */
  datatype Event =
    | Submitted(id: nat)
    | Taken(id: nat)
    | Acquired(id: nat, hold: Hold)
    | Committed(id: nat, req: Request, reply: Reply, effect: Effect)
    | Released(id: nat, hold: Hold)
    | Closed(id: nat)

  datatype State = State(
    running: bool,                 // pool_running
    queue: seq<nat>,               // queue_head .. queue_tail
    workers: seq<Worker>,
    locks: map<Name, Entry>,       // the lock table
    fs: Fs,
    jobs: seq<Job>,                // every job ever submitted
    out: seq<seq<byte>>,           // per job, the bytes its client has been sent
    log: seq<Event>)

  // ---------------------------------------------------------------- views

  function HoldOf(req: Request): Option<Hold> {
    match req
    case Upload(name, _) => Some(Hold(name, Write))
    case Download(name) => Some(Hold(name, Read))
    case Delete(name) => Some(Hold(name, Write))
    case Chmod(name, _) => Some(Hold(name, Write))
    case List => None
    case Reject(_, _) => None
  }

  predicate InSection(stage: Stage) {
    !stage.Ready? && !stage.Asleep? && !stage.Woken? && !stage.Replying?
  }

  /** The lock a worker holds. */
  function Held(w: Worker): Option<Hold> {
    if w.Handling? && InSection(w.stage) then HoldOf(w.req) else None
  }

  /** The lock a worker sleeps for. */
  function Awaited(w: Worker): Option<Hold> {
    if w.Handling? && w.stage.Asleep? then HoldOf(w.req) else None
  }

  function FileAt(fs: Fs, name: Name): Option<File> {
    if name in fs.dir && fs.dir[name] in fs.inodes then Some(fs.inodes[fs.dir[name]]) else None
  }

  function Contents(fs: Fs, ino: Ino): File {
    if ino in fs.inodes then fs.inodes[ino] else File([], 0)
  }

  function RequestOf(job: Job): Request {
    ParseRequest(job.opcode, job.payload)
  }

  // ---------------------------------------------------------------- system calls

  function Truncate(fs: Fs, name: Name, ino: Ino): Fs {
    if name in fs.dir
    then fs.(inodes := fs.inodes[ino := Contents(fs, ino).(data := [])])
    else Fs(fs.dir[name := ino], fs.inodes[ino := File([], CREATE_MODE)])
  }

  /** `write` of `data` at offset 0. */
  function Overwrite(fs: Fs, ino: Ino, data: seq<byte>): Fs {
    var was := Contents(fs, ino);
    var tail := if |was.data| > |data| then was.data[|data|..] else [];
    fs.(inodes := fs.inodes[ino := was.(data := data + tail)])
  }

  function Unlink(fs: Fs, name: Name): Fs {
    fs.(dir := fs.dir - {name})
  }

  function SetMode(fs: Fs, name: Name, mode: nat): Fs
    requires name in fs.dir
  {
    var ino := fs.dir[name];
    fs.(inodes := fs.inodes[ino := Contents(fs, ino).(mode := mode)])
  }

  /** The response of a download up to its body: header with a 32-bit length cast, then the 64-bit size. */
  function FileHead(size: nat, elapsed: u64): seq<byte> {
    SerializeHeader(Header(MAGIC, VERSION, RESP_FILE_DATA, Wrap32(8 + size), elapsed)) + Big(8, size)
  }

  // ---------------------------------------------------------------- actions

  /** A file system call inside a critical section that sends nothing. */
  datatype FileCall =
    | OpenTrunc(ok: bool, ino: Ino)
    | FcntlLock(ok: bool)
    | WriteBody(written: int)
    | UnlinkFile(ok: bool)
    | ChmodFile(ok: bool)
    | OpenRead(ok: bool)
    | Fstat(ok: bool)
    | MmapFails

  /** One step of one worker, with the choices the kernel, the clock and the peer make in it. */
  datatype Choice =
    | Poll                                          // the queue mutex region of worker_main
    | Receive(n: nat)                               // recv_full gets n more payload bytes
    | Abandon                                       // payload cut short, or no memory for it
    | Answer(reply: Reply)                          // a request that takes no lock
    | Acquire                                       // first pass or re-check of a lock acquire
    | Call(call: FileCall)
    | MapFile(elapsed: u64)                         // the file is mapped, and the header clock read
    | SendFile(n: nat)                              // n more bytes of a download go out
    | Release(times: Times)                         // leave the critical section, clock readings included
    | SendReply(n: nat)
    | Finish                                        // response complete, or the connection failed
    | CloseSocket

  datatype Action =
    | Submit(job: Job, wake: set<nat>)              // threadpool_submit; the signal wakes `wake`
    | Shutdown                                      // threadpool_shutdown: flag and broadcast
    | SpuriousPool(w: nat)
    | SpuriousLock(w: nat)
    | Step(w: nat, choice: Choice)

  /** `ErrReply` bodies of the handlers, one per exit. */
  function OpenFailed(): Reply { ErrReply(ERR_INTERNAL, "failed to open file") }
  function LockFailed(): Reply { ErrReply(ERR_INTERNAL, "failed to lock file") }
  function WriteFailed(): Reply { ErrReply(ERR_INTERNAL, "failed to write file body") }
  function MapFailed(): Reply { ErrReply(ERR_INTERNAL, "failed to map file") }
  function NotFound(): Reply { ErrReply(ERR_NOT_FOUND, "file not found") }

  predicate IsListReply(r: Reply) {
    && (r.opcode == RESP_LIST_DATA || r.opcode == RESP_ERR)
    && |r.body| < TWO_32
  }

  predicate CallEnabled(fs: Fs, req: Request, stage: Stage, call: FileCall) {
    match call
    case OpenTrunc(ok, ino) =>
      req.Upload? && stage.Locked? &&
      (ok ==> if req.name in fs.dir then ino == fs.dir[req.name] else ino !in fs.inodes)
    case FcntlLock(ok) => req.Upload? && stage.Opened?
    case WriteBody(written) => req.Upload? && stage.Guarded? && -1 <= written <= |req.data|
    case UnlinkFile(ok) => req.Delete? && stage.Locked? && (ok ==> req.name in fs.dir)
    case ChmodFile(ok) => req.Chmod? && stage.Locked? && (ok ==> req.name in fs.dir)
    case OpenRead(ok) => req.Download? && stage.Locked? && (ok ==> req.name in fs.dir)
    case Fstat(ok) => req.Download? && stage.Reading?
    case MmapFails => req.Download? && stage.Sized? && stage.size > 0
  }

  predicate HandlerEnabled(fs: Fs, req: Request, stage: Stage, c: Choice) {
    match c
    case Answer(reply) =>
      stage.Ready? && ((req.List? && IsListReply(reply)) || (req.Reject? && reply == ErrReply(req.code, req.msg)))
    case Acquire => (stage.Ready? || stage.Woken?) && HoldOf(req).Some?
    case Call(call) => CallEnabled(fs, req, stage, call)
    case MapFile(_) => req.Download? && stage.Sized?
    case SendFile(n) => req.Download? && stage.Sending? && 1 <= n <= 24 + stage.size - stage.off
    case Release(times) => (req.Download? && stage.Sending?) || (HoldOf(req).Some? && stage.Settled?)
    case SendReply(n) => stage.Replying? && 1 <= n <= |Frame(stage.reply)| - stage.off
    case Finish => stage.Replying?
    case _ => false
  }

  predicate Enabled(s: State, a: Action) {
    match a
    case Submit(job, wake) =>
      && s.running
      && (forall i :: i in wake ==> i < |s.workers| && s.workers[i].PoolAsleep?)
      && (wake == {} ==> forall i :: 0 <= i < |s.workers| ==> !s.workers[i].PoolAsleep?)
    case Shutdown => s.running
    case SpuriousPool(w) => w < |s.workers| && s.workers[w].PoolAsleep?
    case SpuriousLock(w) => w < |s.workers| && Awaited(s.workers[w]).Some?
    case Step(w, c) =>
      w < |s.workers| &&
      match s.workers[w]
      case Checking => c.Poll?
      case PoolWoken => c.Poll?
      case Receiving(id, left) => (c.Receive? && 1 <= c.n <= left) || (c.Abandon? && left > 0)
      case Handling(id, req, stage) => HandlerEnabled(s.fs, req, stage, c)
      case Closing(id) => c.CloseSocket?
      case _ => false
  }

  // ---------------------------------------------------------------- effects of actions

  function Become(s: State, w: nat, x: Worker): State
    requires w < |s.workers|
  {
    s.(workers := s.workers[w := x])
  }

  function Note(s: State, es: seq<Event>): State {
    s.(log := s.log + es)
  }

  function Transmit(s: State, id: nat, bytes: seq<byte>): State {
    if id < |s.out| then s.(out := s.out[id := s.out[id] + bytes]) else s
  }

  predicate IsAsleep(ws: seq<Worker>, i: int) {
    0 <= i < |ws| && ws[i].PoolAsleep?
  }

  /** `pthread_cond_signal` and `pthread_cond_broadcast` on the queue condition. */
  function WakePool(ws: seq<Worker>, wake: set<nat>): (r: seq<Worker>)
    ensures |r| == |ws|
  {
    seq(|ws|, i requires 0 <= i < |ws| => if ws[i].PoolAsleep? && i in wake then PoolWoken else ws[i])
  }

  /** `pthread_cond_broadcast` on the lock-table condition: every sleeper, whatever its name. */
  function WakeLockers(ws: seq<Worker>): (r: seq<Worker>)
    ensures |r| == |ws|
  {
    seq(|ws|, i requires 0 <= i < |ws| => if Awaited(ws[i]).Some? then ws[i].(stage := Woken) else ws[i])
  }

  function StartHandling(id: nat, left: nat, job: Job): Worker {
    if left == 0 then Handling(id, RequestOf(job), Ready) else Receiving(id, left)
  }

  function DoPoll(s: State, w: nat): State
    requires w < |s.workers|
  {
    if s.queue == [] then Become(s, w, if s.running then PoolAsleep else Exited)
    else
      var id := s.queue[0];
      var job := if id < |s.jobs| then s.jobs[id] else Job(0, []);
      Note(Become(s, w, StartHandling(id, |job.payload|, job)).(queue := s.queue[1..]), [Taken(id)])
  }

  function DoAcquire(s: State, w: nat, id: nat, req: Request): State
    requires w < |s.workers| && HoldOf(req).Some?
  {
    var h := HoldOf(req).value;
    var e := EntryAt(s.locks, h.name);
    if Conflict(e, h.kind)
    then Become(s, w, Handling(id, req, Asleep)).(locks := s.locks[h.name := e])
    else Note(Become(s, w, Handling(id, req, Locked)).(locks := s.locks[h.name := Grant(e, h.kind)]),
              [Acquired(id, h)])
  }

  /** Where the worker goes, and what the log records, when the critical section is left. */
  function AfterRelease(id: nat, req: Request, stage: Stage, times: Times): (Worker, seq<Event>)
    requires HoldOf(req).Some?
  {
    var h := HoldOf(req).value;
    if stage.Settled? then
      var sent := Timed(req, stage.reply, times);
      (Handling(id, req, Replying(sent, 0)), [Committed(id, req, sent, stage.effect), Released(id, h)])
    else (Closing(id), [Released(id, h)])
  }

  /** A successful reply carries the clock readings; an error reply carries none. */
  function Timed(req: Request, reply: Reply, times: Times): Reply {
    if reply.opcode != RESP_OK then reply
    else if req.Upload? then UploadReply(times) else OkReply(times.write)
  }

  function DoRelease(s: State, w: nat, id: nat, req: Request, stage: Stage, times: Times): State
    requires w < |s.workers| && HoldOf(req).Some?
  {
    var h := HoldOf(req).value;
    var (worker, events) := AfterRelease(id, req, stage, times);
    Note(s.(workers := WakeLockers(s.workers)[w := worker],
            locks := s.locks[h.name := Drop(EntryAt(s.locks, h.name), h.kind)]), events)
  }

  function DoSendFile(s: State, w: nat, id: nat, req: Request, stage: Stage, n: nat): State
    requires w < |s.workers| && stage.Sending?
  {
    var image := FileHead(stage.size, stage.elapsed) + Contents(s.fs, stage.ino).data;
    var to := stage.off + n;
    if to > |image| then Become(s, w, Handling(id, req, Faulted))
    else Become(Transmit(s, id, image[stage.off..to]), w,
                Handling(id, req, Sending(stage.ino, stage.size, stage.elapsed, to)))
  }

  /** What a file system call does to the storage, and where it leaves the handler. */
  function DoCall(fs: Fs, req: Request, stage: Stage, call: FileCall): (Fs, Stage)
    requires CallEnabled(fs, req, stage, call)
  {
    match call
    case OpenTrunc(ok, ino) =>
      if ok then (Truncate(fs, req.name, ino), Opened(ino)) else (fs, Settled(OpenFailed(), Keep))
    case FcntlLock(ok) =>
      (fs, if ok then Guarded(stage.ino) else Settled(LockFailed(), Put(req.name, Contents(fs, stage.ino))))
    case WriteBody(written) =>
      var fs' := if written >= 0 then Overwrite(fs, stage.ino, req.data[..written]) else fs;
      var reply := if written == |req.data| then OkReply(0) else WriteFailed();
      (fs', Settled(reply, Put(req.name, Contents(fs', stage.ino))))
    case UnlinkFile(ok) =>
      if ok then (Unlink(fs, req.name), Settled(OkReply(0), Remove(req.name))) else (fs, Settled(NotFound(), Keep))
    case ChmodFile(ok) =>
      if ok
      then
        var fs' := SetMode(fs, req.name, req.mode % 0x1000);
        (fs', Settled(OkReply(0), Put(req.name, Contents(fs', fs.dir[req.name]))))
      else (fs, Settled(NotFound(), Keep))
    case OpenRead(ok) => (fs, if ok then Reading(fs.dir[req.name]) else Settled(NotFound(), Keep))
    case Fstat(ok) =>
      (fs, if ok then Sized(stage.ino, |Contents(fs, stage.ino).data|) else Settled(NotFound(), Keep))
    case MmapFails => (fs, Settled(MapFailed(), Keep))
  }

  function DoHandler(s: State, w: nat, id: nat, req: Request, stage: Stage, c: Choice): State
    requires w < |s.workers| && HandlerEnabled(s.fs, req, stage, c)
  {
    if c.Answer? then
      Note(Become(s, w, Handling(id, req, Replying(c.reply, 0))), [Committed(id, req, c.reply, Keep)])
    else if c.Acquire? then DoAcquire(s, w, id, req)
    else if c.Call? then
      var (fs, stage') := DoCall(s.fs, req, stage, c.call);
      Become(s, w, Handling(id, req, stage')).(fs := fs)
    else if c.MapFile? then
      // the outcome of a download is fixed here, while the read lock is held
      Note(Become(s, w, Handling(id, req, Sending(stage.ino, stage.size, c.elapsed, 0))),
           [Committed(id, req, FileReply(c.elapsed, Contents(s.fs, stage.ino).data), Keep)])
    else if c.SendFile? then DoSendFile(s, w, id, req, stage, c.n)
    else if c.Release? then DoRelease(s, w, id, req, stage, c.times)
    else if c.SendReply? then
      Become(Transmit(s, id, Frame(stage.reply)[stage.off..stage.off + c.n]), w,
             Handling(id, req, Replying(stage.reply, stage.off + c.n)))
    else Become(s, w, Closing(id))
  }

  function DoStep(s: State, w: nat, c: Choice): State
    requires Enabled(s, Step(w, c))
  {
    var x := s.workers[w];
    if x.Handling? then DoHandler(s, w, x.id, x.req, x.stage, c)
    else if x.Closing? then Note(Become(s, w, Checking), [Event.Closed(x.id)])
    else if x.Receiving? then
      if c.Abandon? then Become(s, w, Closing(x.id))
      else
        var job := if x.id < |s.jobs| then s.jobs[x.id] else Job(0, []);
        Become(s, w, StartHandling(x.id, x.left - c.n, job))
    else DoPoll(s, w)
  }

  function Do(s: State, a: Action): State
    requires Enabled(s, a)
  {
    match a
    case Submit(job, wake) =>
      var id := |s.jobs|;
      Note(s.(queue := s.queue + [id], workers := WakePool(s.workers, wake),
              jobs := s.jobs + [job], out := s.out + [[]]), [Submitted(id)])
    case Shutdown =>
      s.(running := false, workers := WakePool(s.workers, set i | 0 <= i < |s.workers| && IsAsleep(s.workers, i)))
    case SpuriousPool(w) => Become(s, w, PoolWoken)
    case SpuriousLock(w) => Become(s, w, s.workers[w].(stage := Woken))
    case Step(w, c) => DoStep(s, w, c)
  }

  // ---------------------------------------------------------------- runs

  predicate GoodFs(fs: Fs) {
    && (forall n :: n in fs.dir ==> fs.dir[n] in fs.inodes)
    && (forall m, n :: m in fs.dir && n in fs.dir && fs.dir[m] == fs.dir[n] ==> m == n)
    && (forall i :: i in fs.inodes ==> |fs.inodes[i].data| <= MAX_FILE)
  }

  /** The server as started: workers about to look at an empty queue, any storage directory without links. */
  predicate Init(s: State) {
    && s.running && s.queue == [] && s.jobs == [] && s.out == [] && s.log == [] && s.locks == map[]
    && s.workers != [] && (forall i :: 0 <= i < |s.workers| ==> s.workers[i] == Checking)
    && GoodFs(s.fs)
  }

  /** `acts` is a run from `s` to `t`. */
  predicate Runs(s: State, acts: seq<Action>, t: State)
    decreases |acts|
  {
    if acts == [] then s == t
    else Enabled(s, acts[0]) && Runs(Do(s, acts[0]), acts[1..], t)
  }

  /** Appending one enabled action to a run. */
  lemma {:induction false} RunsThen(s: State, acts: seq<Action>, t: State, act: Action)
    requires Runs(s, acts, t) && Enabled(t, act)
    ensures Runs(s, acts + [act], Do(t, act))
    decreases |acts|
  {
    if acts == [] {
      assert acts + [act] == [act];
      assert [act][1..] == [];
    } else {
      assert (acts + [act])[1..] == acts[1..] + [act];
      RunsThen(Do(s, acts[0]), acts[1..], t, act);
    }
  }

  /** One run after the other is a run. */
  lemma {:induction false} RunsAppend(s: State, acts: seq<Action>, t: State, acts': seq<Action>, u: State)
    requires Runs(s, acts, t) && Runs(t, acts', u)
    ensures Runs(s, acts + acts', u)
    decreases |acts'|
  {
    if acts' == [] {
      assert acts + acts' == acts;
    } else {
      RunsThen(s, acts, t, acts'[0]);
      RunsAppend(s, acts + [acts'[0]], Do(t, acts'[0]), acts'[1..], u);
      assert acts + acts' == acts + [acts'[0]] + acts'[1..];
    }
  }

  lemma SameCrewInHandler(s: State, w: nat, c: Choice)
    requires Enabled(s, Step(w, c)) && s.workers[w].Handling?
    ensures |DoStep(s, w, c).workers| == |s.workers|
  {
  }

  /** No step makes or ends a thread. */
  lemma SameCrew(s: State, act: Action)
    requires Enabled(s, act)
    ensures |Do(s, act).workers| == |s.workers|
  {
    if act.Step? && s.workers[act.w].Handling? {
      SameCrewInHandler(s, act.w, act.choice);
    }
  }
}
