/**
  The handlers as the sequential code a worker thread runs (src/handlers.c), between whose system calls and mutex
  regions the other threads do what they like. Every call a handler makes is a step the transition system allows.
*/
module Handlers {
  import opened Bytes
  import opened Protocol
  import opened Payloads
  import opened LockRules
  import opened Server
  import opened LockSafety
  import opened Atomicity
  import opened Traces
  import Listing
  import Timing

  /** The client of job `id` has been sent the start of `reply`, the job's one committed answer, and no lock is left. */
  predicate Answered(s: State, id: nat, req: Request, reply: Reply) {
    && id < |s.out|
    && Concluded(Of(s.log, id), id, req, reply)
    && s.out[id] <= Frame(reply)
  }

  /** A busy worker where it was, or woken. */
  predicate SamePlace(x: Worker, y: Worker) {
    y == x || (x.Handling? && x.stage.Asleep? && y == x.(stage := Woken))
  }

  /** The steps of everybody else: they wake this worker at most. */
  lemma Bystander(s: State, a: Action, w: nat)
    requires Enabled(s, a) && !(a.Step? && a.w == w) && w < |s.workers| && Busy(s.workers[w]).Some?
    ensures var t := Do(s, a); w < |t.workers| && SamePlace(s.workers[w], t.workers[w]) && s.jobs <= t.jobs
  {
    HistoryGrows(s, a);
    SameCrew(s, a);
    if a.Step? {
      OthersWoken(s, a.w, a.choice, w);
    }
  }

  /** They add nothing to the history of this worker's job, and send its client nothing. */
  lemma JobUntouched(a0: Store, s: State, a: Action, w: nat, id: nat)
    requires Inv(a0, s) && Enabled(s, a) && !(a.Step? && a.w == w)
    requires w < |s.workers| && Busy(s.workers[w]) == Some(id)
    ensures var t := Do(s, a); id < |s.out| <= |t.out| && Of(t.log, id) == Of(s.log, id) && t.out[id] == s.out[id]
  {
    assert WorkerJobOk(s, w);
    if a.Submit? {
      OfOne(s.log, [Submitted(|s.jobs|)], |s.jobs|);
    } else if a.Step? {
      StepUntouched(a0, s, a.w, a.choice, id);
    }
  }

  predicate Untouched(s: State, t: State, id: nat) {
    id < |s.out| == |t.out| && Of(t.log, id) == Of(s.log, id) && t.out[id] == s.out[id]
  }

  lemma HandlerUntouched(a0: Store, s: State, v: nat, c: Choice, id: nat)
    requires Inv(a0, s) && Enabled(s, Step(v, c)) && s.workers[v].Handling?
    requires id < |s.out| && s.workers[v].id != id
    ensures Untouched(s, DoStep(s, v, c), id)
  {
    InvGivesBefore(a0, s, v, c);
    HandlerAdvances(a0, s, v, c);
    OfOne(s.log, Logged(s, v, c), s.workers[v].id);
  }

  lemma PoolUntouched(a0: Store, s: State, v: nat, c: Choice, id: nat)
    requires Inv(a0, s) && Enabled(s, Step(v, c)) && !s.workers[v].Handling?
    requires id < |s.out| && id < TakenCount(s) && Busy(s.workers[v]) != Some(id)
    ensures Untouched(s, DoStep(s, v, c), id)
  {
    var x := s.workers[v];
    if x.Closing? {
      OfOne(s.log, [Event.Closed(x.id)], x.id);
    } else if !x.Receiving? && s.queue != [] {
      assert s.queue[0] == TakenCount(s);
      OfOne(s.log, [Taken(s.queue[0])], s.queue[0]);
    }
  }

  lemma StepUntouched(a0: Store, s: State, v: nat, c: Choice, id: nat)
    requires Inv(a0, s) && Enabled(s, Step(v, c)) && id < |s.out| && Busy(s.workers[v]) != Some(id)
    requires id < TakenCount(s)
    ensures Untouched(s, DoStep(s, v, c), id)
  {
    if s.workers[v].Handling? {
      HandlerUntouched(a0, s, v, c, id);
    } else {
      PoolUntouched(a0, s, v, c, id);
    }
  }

  /** And they leave its file alone while it holds its read lock. */
  lemma FileUntouched(a0: Store, s: State, a: Action, w: nat, n: Name)
    requires Inv(a0, s) && Enabled(s, a) && w < |s.workers| && Held(s.workers[w]) == Some(Hold(n, Read))
    ensures FileAt(Do(s, a).fs, n) == FileAt(s.fs, n)
  {
    ReaderUndisturbed(a0, s, a, w, n);
  }

  lemma RepliesAreConcluded(a0: Store, s: State, w: nat)
    requires Inv(a0, s) && w < |s.workers| && s.workers[w].Handling? && s.workers[w].stage.Replying?
    ensures var x := s.workers[w];
            && Answered(s, x.id, x.req, x.stage.reply)
            && x.stage.off <= |Frame(x.stage.reply)| && s.out[x.id] == Frame(x.stage.reply)[..x.stage.off]
  {
    assert WorkerJobOk(s, w);
  }

  /** The committed answer of a download whose bytes are going out. */
  function AnswerOf(fs: Fs, x: Worker): Reply
    requires x.Handling? && x.stage.Sending?
  {
    FileReply(x.stage.elapsed, Contents(fs, x.stage.ino).data)
  }

  lemma SentSoFar(a0: Store, s: State, w: nat)
    requires Inv(a0, s) && w < |s.workers| && s.workers[w].Handling? && s.workers[w].stage.Sending?
    ensures var x := s.workers[w];
            && x.id < |s.out| && HoldOf(x.req).Some? && x.req.Download?
            && Of(s.log, x.id) == Begun(x.id) + [Acquired(x.id, HoldOf(x.req).value),
                                                 Committed(x.id, x.req, AnswerOf(s.fs, x), Keep)]
            && s.out[x.id] <= Frame(AnswerOf(s.fs, x))
  {
    assert WorkerJobOk(s, w);
    assert WorkerOk(Replay(a0, s.log), s.fs, s.workers[w]);
  }

  lemma ReleaseLogs(s: State, w: nat, times: Times)
    requires Enabled(s, Step(w, Release(times))) && s.workers[w].Handling? && s.workers[w].stage.Sending?
    ensures var x, t := s.workers[w], DoStep(s, w, Release(times));
            t.log == s.log + [Released(x.id, HoldOf(x.req).value)] && t.out == s.out
  {
  }

  /** Leaving a download: its committed answer is the file, and what was sent is the start of that answer. */
  lemma DownloadIsConcluded(a0: Store, s: State, w: nat, times: Times)
    requires Inv(a0, s) && Enabled(s, Step(w, Release(times))) && s.workers[w].Handling? && s.workers[w].stage.Sending?
    ensures var x := s.workers[w];
            Answered(DoStep(s, w, Release(times)), x.id, x.req, AnswerOf(s.fs, x))
  {
    var x := s.workers[w];
    SentSoFar(a0, s, w);
    ReleaseLogs(s, w, times);
    var h := HoldOf(x.req).value;
    var commit := Committed(x.id, x.req, AnswerOf(s.fs, x), Keep);
    OfOne(s.log, [Released(x.id, h)], x.id);
    Leaving(Begun(x.id) + [Acquired(x.id, h)], x.id, x.req, commit);
    assert Of(s.log, x.id) + [Released(x.id, h)] == Begun(x.id) + [Acquired(x.id, h)] + [commit, Released(x.id, h)];
  }

  /** And the file is the one of the name asked for. */
  lemma AnswerIsFile(a0: Store, s: State, w: nat)
    requires Inv(a0, s) && w < |s.workers| && s.workers[w].Handling? && s.workers[w].stage.Sending?
    ensures var x := s.workers[w];
            && x.req.Download? && FileAt(s.fs, x.req.name).Some?
            && AnswerOf(s.fs, x) == FileReply(x.stage.elapsed, FileAt(s.fs, x.req.name).value.data)
  {
    assert WorkerOk(Replay(a0, s.log), s.fs, s.workers[w]);
  }

  /** A sender never runs off the end of the mapped file, whatever the pieces. */
  lemma SendingGoesOn(a0: Store, s: State, w: nat, n: nat)
    requires Inv(a0, s) && Enabled(s, Step(w, SendFile(n)))
    ensures var x, t := s.workers[w], DoStep(s, w, SendFile(n));
            t.workers[w] == Handling(x.id, x.req, Sending(x.stage.ino, x.stage.size, x.stage.elapsed, x.stage.off + n))
  {
    InvGivesBefore(a0, s, w, SendFile(n));
    SendFileEffect(Replay(a0, s.log), s, w, SendFile(n));
  }

  /** A worker about to close whose job is answered leaves it finished. */
  lemma ClosedIsFinished(a0: Store, s: State, w: nat)
    requires Inv(a0, s) && w < |s.workers| && s.workers[w].Closing?
    ensures var t, id := DoStep(s, w, CloseSocket), s.workers[w].id;
            && id < |s.jobs| && t.workers[w] == Checking && t.jobs == s.jobs && |t.out| == |t.jobs|
            && Finished(s.jobs[id], id, Of(t.log, id), t.out[id])
  {
    var id := s.workers[w].id;
    assert WorkerJobOk(s, w);
    OfOne(s.log, [Event.Closed(id)], id);
    var tr := Of(s.log, id) + [Event.Closed(id)];
    assert tr[..|tr| - 1] == Of(s.log, id);
  }

  // ---------------------------------------------------------------- what the kernel and the clocks answer

  /** How the calls of a handler will turn out, if it comes to them, and what it will read off the clock. */
  datatype Answers = Answers(
    opens: bool, locks: bool, writes: int,          // upload
    unlinks: bool, changes: bool,                   // delete, chmod
    finds: bool, measures: bool, maps: bool,        // download
    lists: bool,
    begun: Timing.TimeSpec, ended: Timing.TimeSpec,
    readings: Timing.Readings)

  /** The time the handlers other than upload report. */
  function Took(k: Answers): u64 {
    Timing.Elapsed(k.begun, k.ended)
  }

  /** What an upload's client is told. */
  function UploadAnswer(data: seq<byte>, k: Answers): Reply {
    if !k.opens then ErrReply(500, "failed to open file")
    else if !k.locks then ErrReply(500, "failed to lock file")
    else if k.writes != |data| then ErrReply(500, "failed to write file body")
    else UploadReply(Timing.Metrics(k.readings))
  }

  /** What a download's client is told, given the file there was when it was opened. */
  function DownloadAnswer(file: Option<File>, k: Answers): Reply {
    if file == None || !k.finds || !k.measures then ErrReply(404, "file not found")
    else if file.value.data != [] && !k.maps then ErrReply(500, "failed to map file")
    else FileReply(Took(k), file.value.data)
  }

  /** What the client of a delete or a chmod is told, by the outcome of its one call. */
  function PlainAnswer(ok: bool, k: Answers): Reply {
    if ok then OkReply(Took(k)) else ErrReply(404, "file not found")
  }

  /** What a listing's client is told: every reportable item with its own fields, or that there is no listing. */
  ghost predicate ListAnswer(items: seq<Listing.DirItem>, k: Answers, reply: Reply) {
    if k.lists
    then
      && reply.opcode == 0x83 && reply.elapsed == Took(k) && Listing.ReadList(reply.body).Some?
      && exists idx :: Listing.Reports(items, Listing.ReadList(reply.body).value, idx)
    else reply == ErrReply(500, "failed to list storage directory")
  }

  /** Items a directory reading may give, with a listing that fits its 32-bit length. */
  predicate Listable(items: seq<Listing.DirItem>) {
    && (forall d :: d in items ==> Listing.DirName(d.name))
    && |Listing.ListBytes(Listing.Collected(items))| < TWO_32
  }

  class Thread {
    const start: State
    /** The place of this thread in the pool. */
    const w: nat
    /** The whole server, of which this thread is one worker. */
    var st: State
    ghost var acts: seq<Action>

    ghost predicate Valid()
      reads this
    {
      Init(start) && Runs(start, acts, st) && w < |st.workers|
    }

    /** Where this thread is. */
    predicate At(id: nat, req: Request, stage: Stage)
      reads this
    {
      w < |st.workers| && st.workers[w] == Handling(id, req, stage)
    }

    /** The outcome is fixed, and the lock still held. */
    ghost predicate AtSettled(id: nat, req: Request, reply: Reply)
      reads this
    {
      exists effect :: At(id, req, Settled(reply, effect))
    }

    predicate Closing(id: nat)
      reads this
    {
      w < |st.workers| && st.workers[w] == Worker.Closing(id)
    }

    /** This thread made `call` in the state `before` of its run. */
    ghost predicate Called(before: State, call: FileCall)
      reads this
    {
      exists j: nat :: CalledAt(acts, j, before, call)
    }

    ghost predicate CalledAt(acts: seq<Action>, j: nat, before: State, call: FileCall) {
      j < |acts| && Runs(start, acts[..j], before) && acts[j] == Step(w, Call(call))
    }

    lemma CalledBefore(acts: seq<Action>, longer: seq<Action>, before: State, call: FileCall)
      requires acts <= longer && exists j: nat :: CalledAt(acts, j, before, call)
      ensures exists j: nat :: CalledAt(longer, j, before, call)
    {
      var j: nat :| CalledAt(acts, j, before, call);
      assert longer[..j] == acts[..j];
      assert CalledAt(longer, j, before, call);
    }

    constructor (start: State, acts: seq<Action>, st: State, w: nat)
      requires Init(start) && Runs(start, acts, st) && w < |st.workers|
      ensures Valid() && this.st == st && this.w == w
    {
      this.start, this.acts, this.st, this.w := start, acts, st, w;
    }

    /** One step of this thread. */
    method Act(c: Choice)
      requires Valid() && Enabled(st, Step(w, c))
      modifies this
      ensures Valid() && st == old(DoStep(st, w, c)) && acts == old(acts) + [Step(w, c)]
    {
      RunsThen(start, acts, st, Step(w, c));
      SameCrew(st, Step(w, c));
      acts := acts + [Step(w, c)];
      st := DoStep(st, w, c);
    }

    /** One file system call of this thread, remembered with the state it was made in. */
    method CallFile(call: FileCall)
      requires Valid() && Enabled(st, Step(w, Call(call)))
      modifies this
      ensures Valid() && st == old(DoStep(st, w, Call(call))) && old(acts) <= acts && Called(old(st), call)
    {
      ghost var before, j := st, |acts|;
      Act(Call(call));
      assert acts[..j] == old(acts);
      assert CalledAt(acts, j, before, call);
    }

    /** What this thread can rely on across the steps of the others: its place, its job and its file. */
    ghost predicate Undisturbed(s: State, t: State) {
      && w < |s.workers| && w < |t.workers| && SamePlace(s.workers[w], t.workers[w]) && s.jobs <= t.jobs
      && (var id := Busy(s.workers[w]);
          id.Some? ==>
            && id.value < |s.out| <= |t.out|
            && Of(t.log, id.value) == Of(s.log, id.value) && t.out[id.value] == s.out[id.value])
      && (var h := Held(s.workers[w]);
          h.Some? && h.value.kind == Read ==> FileAt(t.fs, h.value.name) == FileAt(s.fs, h.value.name))
    }

    /** Nothing has happened yet. */
    lemma NotYet()
      requires Valid() && Busy(st.workers[w]).Some?
      ensures Undisturbed(st, st)
    {
      Traces.Reachable(start, acts, st);
      assert WorkerJobOk(st, w);
    }

    lemma UndisturbedBy(s: State, t: State, a: Action)
      requires Valid() && t == st && Undisturbed(s, t) && Enabled(t, a) && !(a.Step? && a.w == w)
      requires Busy(s.workers[w]).Some?
      ensures Undisturbed(s, Do(t, a))
    {
      Traces.Reachable(start, acts, st);
      Bystander(t, a, w);
      JobUntouched(View(start.fs), t, a, w, Busy(s.workers[w]).value);
      if Held(s.workers[w]).Some? && Held(s.workers[w]).value.kind == Read {
        FileUntouched(View(start.fs), t, a, w, Held(s.workers[w]).value.name);
      }
    }

    /** Any number of steps of everybody else. */
    method Interfere()
      requires Valid() && Busy(st.workers[w]).Some?
      modifies this
      ensures Valid() && old(acts) <= acts && Undisturbed(old(st), st)
    {
      var n: nat := *;
      NotYet();
      while n > 0
        invariant Valid() && old(acts) <= acts && Undisturbed(old(st), st)
      {
        var a: Action := *;
        if Enabled(st, a) && !(a.Step? && a.w == w) {
          UndisturbedBy(old(st), st, a);
          RunsThen(start, acts, st, a);
          acts := acts + [a];
          st := Do(st, a);
        }
        n := n - 1;
      }
    }

    /** One pass over the lock, first or after a wakeup. */
    method PassLock(id: nat, req: Request)
      requires Valid() && (At(id, req, Ready) || At(id, req, Woken)) && HoldOf(req).Some?
      modifies this
      ensures Valid() && (At(id, req, Locked) || At(id, req, Asleep)) && old(acts) <= acts
    {
      Act(Acquire);
    }

    /** Both lock acquires: after `waits` rounds of waiting it is no longer followed. */
    method AcquireLock(id: nat, req: Request, waits: nat) returns (granted: bool)
      requires Valid() && At(id, req, Ready) && HoldOf(req).Some?
      modifies this
      ensures Valid() && old(acts) <= acts
      ensures if granted then At(id, req, Locked) else At(id, req, Asleep) || At(id, req, Woken)
    {
      Interfere();
      PassLock(id, req);
      var rounds := 0;
      while !st.workers[w].stage.Locked? && rounds < waits
        invariant Valid() && (At(id, req, Locked) || At(id, req, Asleep) || At(id, req, Woken)) && old(acts) <= acts
      {
        Interfere();
        if st.workers[w].stage.Woken? {
          PassLock(id, req);
        }
        rounds := rounds + 1;
      }
      granted := st.workers[w].stage.Locked?;
      if granted {
        Interfere();
      }
    }

    /** `send_message`: the header, the body, and the end of the handler. */
    method SendMessage(id: nat, req: Request, reply: Reply) returns (whole: bool)
      requires Valid() && At(id, req, Replying(reply, 0))
      modifies this
      ensures Valid() && Closing(id) && old(acts) <= acts
      ensures Answered(st, id, req, reply) && (whole ==> st.out[id] == Frame(reply))
    {
      var frame := Frame(reply);
      var off := 0;
      whole := true;
      while off < |frame| && whole
        invariant Valid() && off <= |frame| && At(id, req, Replying(reply, off)) && old(acts) <= acts
        decreases |frame| - off, whole
      {
        var n: int := *;
        if 1 <= n <= |frame| - off {
          Act(SendReply(n));
          off := off + n;
          Interfere();
        } else {
          whole := false;
        }
      }
      Conclude(id, req, reply, off);
    }

    /** The end of the sending, wherever it got to: the answer is the committed one. */
    method Conclude(id: nat, req: Request, reply: Reply, off: nat)
      requires Valid() && At(id, req, Replying(reply, off))
      modifies this
      ensures Valid() && Closing(id) && old(acts) <= acts
      ensures Answered(st, id, req, reply) && off <= |Frame(reply)| && st.out[id] == Frame(reply)[..off]
    {
      Traces.Reachable(start, acts, st);
      RepliesAreConcluded(View(start.fs), st, w);
      Act(Finish);
    }

    /** `send_error` on a request refused before it took any lock. */
    method SendError(id: nat, code: u16, msg: string)
      requires Valid() && At(id, Reject(code, msg), Ready)
      modifies this
      ensures Valid() && Closing(id)
      ensures Answered(st, id, Reject(code, msg), ErrReply(code, msg))
    {
      Interfere();
      Act(Answer(ErrReply(code, msg)));
      Interfere();
      var whole := SendMessage(id, Reject(code, msg), ErrReply(code, msg));
    }

    /** The end of every critical section that sends its response afterwards. */
    method ReleaseAndSend(id: nat, req: Request, reply: Reply, times: Times)
      requires Valid() && HoldOf(req).Some? && AtSettled(id, req, reply)
      modifies this
      ensures Valid() && Closing(id) && old(acts) <= acts
      ensures Answered(st, id, req, Timed(req, reply, times))
    {
      Interfere();
      Act(Release(times));
      Interfere();
      var whole := SendMessage(id, req, Timed(req, reply, times));
    }

    // ---------------------------------------------------------------- upload

    /** A number for a new inode. */
    method NewInode() returns (ino: Ino)
      ensures ino !in st.fs.inodes
    {
      var rest := st.fs.inodes.Keys;
      ino := 0;
      while rest != {}
        invariant forall i :: i in st.fs.inodes ==> i in rest || i < ino
        decreases |rest|
      {
        var i: Ino :| i in rest;
        if ino <= i {
          ino := i + 1;
        }
        rest := rest - {i};
      }
    }

    /** `open` with `O_CREAT | O_TRUNC`. */
    method OpenForUpload(id: nat, name: Name, data: seq<byte>, opens: bool)
      requires Valid() && At(id, Upload(name, data), Locked)
      modifies this
      ensures Valid() && old(acts) <= acts
      ensures if opens then exists ino :: At(id, Upload(name, data), Opened(ino))
              else At(id, Upload(name, data), Settled(OpenFailed(), Keep))
    {
      var ino := NewInode();
      if name in st.fs.dir {
        ino := st.fs.dir[name];
      }
      Act(Call(OpenTrunc(opens, ino)));
      assert opens ==> At(id, Upload(name, data), Opened(ino));
    }

    /** The one `write`, of the count the kernel takes. */
    method WriteNow(id: nat, name: Name, data: seq<byte>, writes: int)
      requires Valid() && exists ino :: At(id, Upload(name, data), Guarded(ino))
      modifies this
      ensures Valid() && old(acts) <= acts
      ensures AtSettled(id, Upload(name, data), if writes == |data| then OkReply(0) else WriteFailed())
    {
      var written := if -1 <= writes <= |data| then writes else -1;
      Act(Call(WriteBody(written)));
      assert At(id, Upload(name, data), Settled(st.workers[w].stage.reply, st.workers[w].stage.effect));
    }

    /** `fcntl` on the open file. */
    method LockFile(id: nat, name: Name, data: seq<byte>, locks: bool)
      requires Valid() && exists ino :: At(id, Upload(name, data), Opened(ino))
      modifies this
      ensures Valid() && old(acts) <= acts
      ensures if locks then exists ino :: At(id, Upload(name, data), Guarded(ino))
              else AtSettled(id, Upload(name, data), LockFailed())
    {
      ghost var ino := st.workers[w].stage.ino;
      Act(Call(FcntlLock(locks)));
      assert locks ==> At(id, Upload(name, data), Guarded(ino));
      assert !locks ==> At(id, Upload(name, data), Settled(LockFailed(), st.workers[w].stage.effect));
    }

    /** The critical section of an upload once the file is open: lock it, write it, and say how that went. */
    method WriteFile(id: nat, name: Name, data: seq<byte>, k: Answers)
      requires Valid() && k.opens && exists ino :: At(id, Upload(name, data), Opened(ino))
      modifies this
      ensures Valid() && Closing(id) && Answered(st, id, Upload(name, data), UploadAnswer(data, k))
    {
      var times := Timing.Metrics(k.readings);
      LockFile(id, name, data, k.locks);
      if !k.locks {
        ReleaseAndSend(id, Upload(name, data), LockFailed(), times);
        return;
      }
      Interfere();
      WriteNow(id, name, data, k.writes);
      if k.writes != |data| {
        ReleaseAndSend(id, Upload(name, data), WriteFailed(), times);
      } else {
        ReleaseAndSend(id, Upload(name, data), OkReply(0), times);
      }
    }

    /** An upload whose payload is in order: lock, open, write, answer. */
    method StoreUpload(id: nat, name: Name, data: seq<byte>, k: Answers, waits: nat) returns (done: bool)
      requires Valid() && At(id, Upload(name, data), Ready) && HoldOf(Upload(name, data)).Some?
      modifies this
      ensures Valid() && (done ==> Closing(id) && Answered(st, id, Upload(name, data), UploadAnswer(data, k)))
      ensures !done ==> At(id, Upload(name, data), Asleep) || At(id, Upload(name, data), Woken)
    {
      done := AcquireLock(id, Upload(name, data), waits);
      if !done {
        return;
      }
      OpenForUpload(id, name, data, k.opens);
      if !k.opens {
        ReleaseAndSend(id, Upload(name, data), OpenFailed(), Timing.Metrics(k.readings));
        return;
      }
      Interfere();
      WriteFile(id, name, data, k);
    }

    /** `handle_upload_timed`: `done` unless it still waits for the lock. */
    method HandleUpload(id: nat, payload: Payload, k: Answers, waits: nat) returns (done: bool)
      requires Valid() && At(id, ParseUpload(payload), Ready)
      modifies this
      ensures Valid() && Handled(id, ParseUpload(payload), k, [], done)
    {
      if |payload| < 2 {
        SendError(id, ERR_BAD_REQUEST, "upload payload too short");
        return true;
      }
      var nameLen := Read16(payload[..2]);
      var offset: u32 := 2;
      if |payload| < Wrap32(Wrap32(offset + nameLen) + 8) {
        SendError(id, ERR_BAD_REQUEST, "upload payload truncated");
        return true;
      }
      var name := payload[offset..offset + nameLen];
      offset := offset + nameLen;
      var size := Read64(payload[offset..offset + 8]);
      offset := offset + 8;
      if Wrap32(|payload| - offset) != size {
        SendError(id, ERR_BAD_REQUEST, "declared file size does not match payload");
        return true;
      }
      if SafeResolve(name).None? {
        SendError(id, ERR_FORBIDDEN, "invalid filename");
        return true;
      }
      var data := payload[offset..];
      done := StoreUpload(id, name, data, k, waits);
    }

    // ---------------------------------------------------------------- download

    /** The file of a name, as a download sees it from its `open` on: this thread called it in `before`. */
    ghost predicate Sees(name: Name, k: Answers, before: State)
      reads this
    {
      Called(before, OpenRead(k.finds && FileAt(before.fs, name).Some?)) && FileAt(st.fs, name) == FileAt(before.fs, name)
    }

    /** `fileops_open_for_mmap_read`: open, measure, map; an empty file is not mapped. */
    method OpenForMmapRead(id: nat, name: Name, k: Answers) returns (rc: int, ghost before: State)
      requires Valid() && At(id, Download(name), Locked)
      modifies this
      ensures Valid() && old(acts) <= acts && Sees(name, k, before)
      ensures var file := FileAt(before.fs, name);
              rc == if file == None || !k.finds || !k.measures then -1
                    else if file.value.data != [] && !k.maps then -2 else 0
      ensures MapCode(id, name, rc)
    {
      before := st;
      var found := OpenFile(id, name, k);
      rc := -1;
      if found {
        ghost var opening := acts;
        rc := MapOpened(id, name, k);
        CalledBefore(opening, acts, before, OpenRead(true));
      }
    }

    /** Where the three return codes leave a download. */
    ghost predicate MapCode(id: nat, name: Name, rc: int)
      reads this
    {
      if rc == -1 then At(id, Download(name), Settled(NotFound(), Keep))
      else if rc == -2 then At(id, Download(name), Settled(MapFailed(), Keep))
      else rc == 0 && exists ino, size :: At(id, Download(name), Sized(ino, size))
    }

    /** The rest of it, on the open file. */
    method MapOpened(id: nat, name: Name, k: Answers) returns (rc: int)
      requires Valid() && exists ino :: At(id, Download(name), Reading(ino))
      modifies this
      ensures Valid() && old(acts) <= acts && MapCode(id, name, rc)
      ensures FileAt(st.fs, name).Some? && FileAt(st.fs, name) == old(FileAt(st.fs, name))
      ensures rc == if !k.measures then -1 else if FileAt(st.fs, name).value.data != [] && !k.maps then -2 else 0
    {
      Interfere();
      var size := Measure(id, name, k.measures);
      if !k.measures {
        return -1;
      }
      Interfere();
      var mapped := Mmap(id, name, size, k.maps);
      return if mapped then 0 else -2;
    }

    /** `open` for reading. */
    method OpenFile(id: nat, name: Name, k: Answers) returns (found: bool)
      requires Valid() && At(id, Download(name), Locked)
      modifies this
      ensures Valid() && old(acts) <= acts && found == (k.finds && old(FileAt(st.fs, name)).Some?)
      ensures Called(old(st), OpenRead(found)) && FileAt(st.fs, name) == old(FileAt(st.fs, name))
      ensures if found then exists ino :: At(id, Download(name), Reading(ino))
              else At(id, Download(name), Settled(NotFound(), Keep))
    {
      found := k.finds && FileAt(st.fs, name).Some?;
      CallFile(OpenRead(found));
      assert found ==> At(id, Download(name), Reading(st.fs.dir[name]));
    }

    /** `fstat`: the size is that of the file of the name. */
    method Measure(id: nat, name: Name, measures: bool) returns (size: nat)
      requires Valid() && exists ino :: At(id, Download(name), Reading(ino))
      modifies this
      ensures Valid() && old(acts) <= acts && FileAt(st.fs, name) == old(FileAt(st.fs, name))
      ensures FileAt(st.fs, name).Some?
      ensures if measures
              then size == |FileAt(st.fs, name).value.data|
                   && exists ino :: At(id, Download(name), Sized(ino, size))
              else At(id, Download(name), Settled(NotFound(), Keep))
    {
      Traces.Reachable(start, acts, st);
      assert WorkerOk(Replay(View(start.fs), st.log), st.fs, st.workers[w]);
      ghost var ino := st.workers[w].stage.ino;
      Act(Call(Fstat(measures)));
      size := if measures then st.workers[w].stage.size else 0;
      assert measures ==> At(id, Download(name), Sized(ino, size));
    }

    /** `mmap`, which an empty file is spared. */
    method Mmap(id: nat, name: Name, size: nat, maps: bool) returns (ok: bool)
      requires Valid() && exists ino :: At(id, Download(name), Sized(ino, size))
      modifies this
      ensures Valid() && old(acts) <= acts && FileAt(st.fs, name) == old(FileAt(st.fs, name))
      ensures ok == (size == 0 || maps)
      ensures if ok then exists ino :: At(id, Download(name), Sized(ino, size))
              else At(id, Download(name), Settled(MapFailed(), Keep))
    {
      ok := size == 0 || maps;
      if !ok {
        Act(Call(MmapFails));
      }
    }

    /** One `write` of a piece of the response. */
    method SendPiece(id: nat, name: Name, ino: Ino, size: nat, elapsed: u64, off: nat, n: nat)
      requires Valid() && At(id, Download(name), Sending(ino, size, elapsed, off)) && 1 <= n <= 24 + size - off
      modifies this
      ensures Valid() && At(id, Download(name), Sending(ino, size, elapsed, off + n))
      ensures old(acts) <= acts && st.fs == old(st.fs)
    {
      Traces.Reachable(start, acts, st);
      SendingGoesOn(View(start.fs), st, w, n);
      Act(SendFile(n));
    }

    /** Header, size prefix and mapped file, in pieces, until the connection fails. */
    method SendMapped(id: nat, name: Name, ino: Ino, size: nat, elapsed: u64)
      requires Valid() && At(id, Download(name), Sending(ino, size, elapsed, 0))
      modifies this
      ensures Valid() && exists off :: At(id, Download(name), Sending(ino, size, elapsed, off))
      ensures old(acts) <= acts && FileAt(st.fs, name) == old(FileAt(st.fs, name))
    {
      var off := 0;
      var broken := false;
      while off < 24 + size && !broken
        invariant Valid() && off <= 24 + size && At(id, Download(name), Sending(ino, size, elapsed, off))
        invariant old(acts) <= acts && FileAt(st.fs, name) == old(FileAt(st.fs, name))
        decreases 24 + size - off, !broken
      {
        Interfere();
        var n: int := *;
        if 1 <= n <= 24 + size - off {
          SendPiece(id, name, ino, size, elapsed, off, n);
          off := off + n;
        } else {
          broken := true;
        }
      }
    }

    /** The read lock is given up only now that everything has been sent. */
    method ReleaseRead(id: nat, name: Name, elapsed: u64)
      requires Valid() && exists ino, size, off :: At(id, Download(name), Sending(ino, size, elapsed, off))
      modifies this
      ensures Valid() && Closing(id) && old(acts) <= acts && old(FileAt(st.fs, name)).Some?
      ensures Answered(st, id, Download(name), FileReply(elapsed, old(FileAt(st.fs, name)).value.data))
    {
      var times: Times := *;
      Traces.Reachable(start, acts, st);
      AnswerIsFile(View(start.fs), st, w);
      DownloadIsConcluded(View(start.fs), st, w, times);
      Act(Release(times));
    }

    /** The file is mapped, and its answer committed. */
    method MapNow(id: nat, name: Name, elapsed: u64) returns (ino: Ino, size: nat)
      requires Valid() && exists ino, size :: At(id, Download(name), Sized(ino, size))
      modifies this
      ensures Valid() && old(acts) <= acts && st.fs == old(st.fs)
      ensures At(id, Download(name), Sending(ino, size, elapsed, 0))
    {
      ino, size := st.workers[w].stage.ino, st.workers[w].stage.size;
      Act(MapFile(elapsed));
    }

    /** The sending half of a download, from the mapping to the release. */
    method SendAndRelease(id: nat, name: Name, elapsed: u64)
      requires Valid() && exists ino, size :: At(id, Download(name), Sized(ino, size))
      modifies this
      ensures Valid() && Closing(id) && old(acts) <= acts && old(FileAt(st.fs, name)).Some?
      ensures Answered(st, id, Download(name), FileReply(elapsed, old(FileAt(st.fs, name)).value.data))
    {
      Interfere();
      var ino, size := MapNow(id, name, elapsed);
      SendMapped(id, name, ino, size, elapsed);
      Interfere();
      ReleaseRead(id, name, elapsed);
    }

    /** A download whose payload is in order: lock, open, map, send, release. */
    method ServeDownload(id: nat, name: Name, k: Answers, waits: nat) returns (done: bool)
      requires Valid() && At(id, Download(name), Ready) && HoldOf(Download(name)).Some?
      modifies this
      ensures Valid() && Handled(id, Download(name), k, [], done)
    {
      done := AcquireLock(id, Download(name), waits);
      if !done {
        return;
      }
      ghost var before;
      var rc;
      rc, before := OpenForMmapRead(id, name, k);
      ghost var opening := acts;
      if rc == -1 {
        ReleaseAndSend(id, Download(name), NotFound(), Times(0, 0, 0));
      } else if rc == -2 {
        ReleaseAndSend(id, Download(name), MapFailed(), Times(0, 0, 0));
      } else {
        SendAndRelease(id, name, Took(k));
      }
      CalledBefore(opening, acts, before, OpenRead(k.finds && FileAt(before.fs, name).Some?));
      assert DownloadServed(id, name, k, before);
    }

    /** `handle_download`. */
    method HandleDownload(id: nat, payload: Payload, k: Answers, waits: nat) returns (done: bool)
      requires Valid() && At(id, ParseDownload(payload), Ready)
      modifies this
      ensures Valid() && Handled(id, ParseDownload(payload), k, [], done)
    {
      if |payload| < 2 {
        SendError(id, ERR_BAD_REQUEST, "download payload too short");
        return true;
      }
      var nameLen: int := Read16(payload[..2]);
      if |payload| != Wrap32(2 + nameLen) {
        SendError(id, ERR_BAD_REQUEST, "download payload malformed");
        return true;
      }
      var name := payload[2..];
      if SafeResolve(name).None? {
        SendError(id, ERR_FORBIDDEN, "invalid filename");
        return true;
      }
      done := ServeDownload(id, name, k, waits);
    }

    // ---------------------------------------------------------------- delete, chmod, list

    /** `unlink`, in a critical section. */
    method UnlinkName(id: nat, name: Name, unlinks: bool) returns (ok: bool)
      requires Valid() && At(id, Delete(name), Locked)
      modifies this
      ensures Valid() && old(acts) <= acts && ok == (unlinks && old(FileAt(st.fs, name)).Some?)
      ensures Called(old(st), UnlinkFile(ok))
      ensures At(id, Delete(name), if ok then Settled(OkReply(0), Remove(name)) else Settled(NotFound(), Keep))
      ensures FileAt(st.fs, name) == if ok then None else old(FileAt(st.fs, name))
    {
      ok := unlinks && FileAt(st.fs, name).Some?;
      CallFile(UnlinkFile(ok));
    }

    /** A delete whose payload is in order: lock, unlink, release, answer. */
    method DeleteLocked(id: nat, name: Name, k: Answers, waits: nat) returns (done: bool)
      requires Valid() && At(id, Delete(name), Ready) && HoldOf(Delete(name)).Some?
      modifies this
      ensures Valid() && Handled(id, Delete(name), k, [], done)
    {
      done := AcquireLock(id, Delete(name), waits);
      if !done {
        return;
      }
      ghost var before := st;
      var ok := UnlinkName(id, name, k.unlinks);
      ghost var unlinked := acts;
      Interfere();
      ReleaseAndSend(id, Delete(name), if ok then OkReply(0) else NotFound(), Times(0, Took(k), 0));
      CalledBefore(unlinked, acts, before, UnlinkFile(ok));
      assert DeleteServed(id, name, k, before);
    }

    /** `handle_delete`. */
    method HandleDelete(id: nat, payload: Payload, k: Answers, waits: nat) returns (done: bool)
      requires Valid() && At(id, ParseDelete(payload), Ready)
      modifies this
      ensures Valid() && Handled(id, ParseDelete(payload), k, [], done)
    {
      if |payload| < 2 {
        SendError(id, ERR_BAD_REQUEST, "delete payload too short");
        return true;
      }
      var nameLen: int := Read16(payload[..2]);
      if |payload| != Wrap32(2 + nameLen) {
        SendError(id, ERR_BAD_REQUEST, "delete payload malformed");
        return true;
      }
      var name := payload[2..];
      if SafeResolve(name).None? {
        SendError(id, ERR_FORBIDDEN, "invalid filename");
        return true;
      }
      done := DeleteLocked(id, name, k, waits);
    }

    /** `chmod`, in a critical section. */
    method ChangeMode(id: nat, name: Name, mode: u32, changes: bool) returns (ok: bool)
      requires Valid() && At(id, Chmod(name, mode), Locked)
      modifies this
      ensures Valid() && old(acts) <= acts && ok == (changes && old(FileAt(st.fs, name)).Some?)
      ensures Called(old(st), ChmodFile(ok))
      ensures AtSettled(id, Chmod(name, mode), if ok then OkReply(0) else NotFound())
      ensures FileAt(st.fs, name) ==
              if ok then Some(File(old(FileAt(st.fs, name)).value.data, mode % 0x1000)) else old(FileAt(st.fs, name))
    {
      ok := changes && FileAt(st.fs, name).Some?;
      CallFile(ChmodFile(ok));
      assert At(id, Chmod(name, mode), Settled(if ok then OkReply(0) else NotFound(), st.workers[w].stage.effect));
    }

    /** A chmod whose payload is in order: lock, change, release, answer. */
    method ChmodLocked(id: nat, name: Name, mode: u32, k: Answers, waits: nat) returns (done: bool)
      requires Valid() && At(id, Chmod(name, mode), Ready) && HoldOf(Chmod(name, mode)).Some?
      modifies this
      ensures Valid() && Handled(id, Chmod(name, mode), k, [], done)
    {
      done := AcquireLock(id, Chmod(name, mode), waits);
      if !done {
        return;
      }
      ghost var before := st;
      var ok := ChangeMode(id, name, mode, k.changes);
      ghost var changed := acts;
      Interfere();
      ReleaseAndSend(id, Chmod(name, mode), if ok then OkReply(0) else NotFound(), Times(0, Took(k), 0));
      CalledBefore(changed, acts, before, ChmodFile(ok));
      assert ChmodServed(id, name, mode, k, before);
    }

    /** `handle_chmod`. */
    method HandleChmod(id: nat, payload: Payload, k: Answers, waits: nat) returns (done: bool)
      requires Valid() && At(id, ParseChmod(payload), Ready)
      modifies this
      ensures Valid() && Handled(id, ParseChmod(payload), k, [], done)
    {
      if |payload| < 2 {
        SendError(id, ERR_BAD_REQUEST, "chmod payload too short");
        return true;
      }
      var nameLen: int := Read16(payload[..2]);
      if |payload| != Wrap32(Wrap32(2 + nameLen) + 4) {
        SendError(id, ERR_BAD_REQUEST, "chmod payload malformed");
        return true;
      }
      var name := payload[2..2 + nameLen];
      if SafeResolve(name).None? {
        SendError(id, ERR_FORBIDDEN, "invalid filename");
        return true;
      }
      var mode := Read32(payload[2 + nameLen..]);
      done := ChmodLocked(id, name, mode, k, waits);
    }

    /** `handle_list`: it takes no lock, and reports whatever the directory reading produced. */
    method HandleList(id: nat, items: seq<Listing.DirItem>, k: Answers)
      requires Valid() && At(id, List, Ready) && Listable(items)
      modifies this
      ensures Valid() && Handled(id, List, k, items, true)
    {
      var reply := ErrReply(ERR_INTERNAL, "failed to list storage directory");
      if k.lists {
        reply := Listing.HandleList(items, Took(k));
      }
      Interfere();
      Act(Answer(reply));
      Interfere();
      var whole := SendMessage(id, List, reply);
    }

    // ---------------------------------------------------------------- a whole job

    /** `dispatch_request_timed`. */
    method Dispatch(id: nat, opcode: u16, payload: Payload, items: seq<Listing.DirItem>, k: Answers, waits: nat)
      returns (done: bool)
      requires Valid() && At(id, ParseRequest(opcode, payload), Ready) && (opcode == REQ_LIST ==> Listable(items))
      modifies this
      ensures Valid() && Handled(id, ParseRequest(opcode, payload), k, items, done)
    {
      if opcode == REQ_UPLOAD {
        done := HandleUpload(id, payload, k, waits);
      } else if opcode == REQ_DOWNLOAD {
        done := HandleDownload(id, payload, k, waits);
      } else if opcode == REQ_LIST {
        HandleList(id, items, k);
        done := true;
      } else if opcode == REQ_DELETE {
        done := HandleDelete(id, payload, k, waits);
      } else if opcode == REQ_CHMOD {
        done := HandleChmod(id, payload, k, waits);
      } else {
        SendError(id, ERR_BAD_REQUEST, "unknown opcode");
        done := true;
      }
    }

    /** All of a payload arrives on a connection, and there is memory for it; an empty one needs neither. */
    static predicate Arrives(job: Job, stream: seq<byte>, ending: Ending, memory: bool) {
      |job.payload| == 0 || (memory && Received(stream, ending, |job.payload|) == |job.payload|)
    }

    /** `recv_full` of the payload: all of it arrives, or the job is given up with nothing sent. */
    method ReceivePayload(id: nat, job: Job, stream: seq<byte>, ending: Ending, memory: bool) returns (ok: bool)
      requires Valid() && id < |st.jobs| && st.jobs[id] == job
      requires st.workers[w] == StartHandling(id, |job.payload|, job)
      modifies this
      ensures Valid() && ok == Arrives(job, stream, ending, memory)
      ensures if ok then At(id, RequestOf(job), Ready) else Closing(id) && GivenUp(id)
    {
      var left: nat := |job.payload|;
      var come: nat := if memory then |stream| else 0;
      while left > 0
        invariant Valid() && id < |st.jobs| && st.jobs[id] == job
        invariant st.workers[w] == StartHandling(id, left, job)
        invariant left <= |job.payload| && come + |job.payload| == left + if memory then |stream| else 0
      {
        Interfere();
        if come == 0 {
          GiveUp(id);
          return false;
        }
        var n: nat := *;
        if n < 1 || n > left || n > come {
          n := 1;
        }
        Act(Receive(n));
        left, come := left - n, come - n;
      }
      return true;
    }

    /** Nothing was done for this job, and nothing sent. */
    predicate GivenUp(id: nat)
      reads this
    {
      id < |st.out| && Of(st.log, id) == Begun(id) && st.out[id] == []
    }

    method GiveUp(id: nat)
      requires Valid() && st.workers[w].Receiving? && st.workers[w].id == id && st.workers[w].left > 0
      modifies this
      ensures Valid() && Closing(id) && GivenUp(id)
    {
      Traces.Reachable(start, acts, st);
      assert WorkerJobOk(st, w);
      Act(Abandon);
    }

    /**
      `process_job`: a job that was taken is received, dispatched and closed, or given up and closed; either way it
      is finished, unless the handler still waits for its lock.
    */
    method ProcessJob(id: nat, job: Job, stream: seq<byte>, ending: Ending, memory: bool,
                      items: seq<Listing.DirItem>, k: Answers, waits: nat) returns (done: bool)
      requires Valid() && id < |st.jobs| && st.jobs[id] == job
      requires st.workers[w] == StartHandling(id, |job.payload|, job)
      requires job.opcode == REQ_LIST ==> Listable(items)
      modifies this
      ensures Valid()
      ensures done ==> st.workers[w] == Checking && id < |st.jobs| == |st.out|
                       && Finished(st.jobs[id], id, Of(st.log, id), st.out[id])
      ensures !Arrives(job, stream, ending, memory) ==> done && st.out[id] == []
      ensures !done ==> At(id, RequestOf(job), Asleep) || At(id, RequestOf(job), Woken)
    {
      var ok := ReceivePayload(id, job, stream, ending, memory);
      done := true;
      if ok {
        done := Dispatch(id, job.opcode, job.payload, items, k, waits);
      }
      if done {
        Interfere();
        Traces.Reachable(start, acts, st);
        ClosedIsFinished(View(start.fs), st, w);
        Act(CloseSocket);
      }
    }

    // ---------------------------------------------------------------- what a handler has done

    /** A delete was answered by the outcome of its `unlink`: it succeeds when the kernel lets it and the file is there. */
    ghost predicate DeleteServed(id: nat, name: Name, k: Answers, before: State)
      reads this
    {
      var ok := k.unlinks && FileAt(before.fs, name).Some?;
      Called(before, UnlinkFile(ok)) && Answered(st, id, Delete(name), PlainAnswer(ok, k))
    }

    ghost predicate ChmodServed(id: nat, name: Name, mode: u32, k: Answers, before: State)
      reads this
    {
      var ok := k.changes && FileAt(before.fs, name).Some?;
      Called(before, ChmodFile(ok)) && Answered(st, id, Chmod(name, mode), PlainAnswer(ok, k))
    }

    /** A download was answered with the file there was when it was opened. */
    ghost predicate DownloadServed(id: nat, name: Name, k: Answers, before: State)
      reads this
    {
      && Called(before, OpenRead(k.finds && FileAt(before.fs, name).Some?))
      && Answered(st, id, Download(name), DownloadAnswer(FileAt(before.fs, name), k))
    }

    /** The one committed answer of a handler that is over. */
    ghost predicate Served(id: nat, req: Request, k: Answers, items: seq<Listing.DirItem>)
      reads this
    {
      match req
      case Upload(_, data) => Answered(st, id, req, UploadAnswer(data, k))
      case Download(name) => exists before :: DownloadServed(id, name, k, before)
      case Delete(name) => exists before :: DeleteServed(id, name, k, before)
      case Chmod(name, mode) => exists before :: ChmodServed(id, name, mode, k, before)
      case List => exists reply :: ListAnswer(items, k, reply) && Answered(st, id, req, reply)
      case Reject(code, msg) => Answered(st, id, req, ErrReply(code, msg))
    }

    /** The handler is over and its client answered as it must be, or it sleeps, or is woken, for its lock. */
    ghost predicate Handled(id: nat, req: Request, k: Answers, items: seq<Listing.DirItem>, done: bool)
      reads this
    {
      if done then Closing(id) && Served(id, req, k, items) else At(id, req, Asleep) || At(id, req, Woken)
    }
  }
}
