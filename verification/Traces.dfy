/**
  What every client can observe, over every run: jobs are taken in submission order, each goes once through
  submit, take, acquire, commit, release and close, and the bytes sent are a prefix of the committed reply.
*/
module Traces {
  import opened Bytes
  import opened Protocol
  import opened Payloads
  import opened LockRules
  import opened Server
  import opened LockSafety
  import opened Atomicity

  /** The events of one job, in log order. */
  function Of(log: seq<Event>, id: nat): seq<Event> {
    if log == [] then []
    else
      var last := |log| - 1;
      Of(log[..last], id) + if log[last].id == id then [log[last]] else []
  }

  lemma {:induction false} OfAppend(log: seq<Event>, es: seq<Event>, id: nat)
    ensures Of(log + es, id) == Of(log, id) + Of(es, id)
  {
    if es == [] {
      assert log + es == log;
    } else {
      var last := |es| - 1;
      assert (log + es)[..|log| + last] == log + es[..last];
      OfAppend(log, es[..last], id);
    }
  }

  /** The job a worker is busy with. */
  function Busy(w: Worker): Option<nat> {
    match w
    case Receiving(id, _) => Some(id)
    case Handling(id, _, _) => Some(id)
    case Closing(id) => Some(id)
    case _ => None
  }

  function Begun(id: nat): seq<Event> {
    [Submitted(id), Taken(id)]
  }

  /** The commit of a finished trace. */
  function CommitIn(tr: seq<Event>): Event
    requires tr != []
  {
    if |tr| >= 4 then tr[3] else tr[|tr| - 1]
  }

  /** One acquire, one commit and one release of the same lock, in that order; or one commit and no lock. */
  predicate Concluded(tr: seq<Event>, id: nat, req: Request, reply: Reply) {
    && |tr| >= 3 && CommitIn(tr).Committed?
    && var c := Committed(id, req, reply, CommitIn(tr).effect);
       match HoldOf(req)
       case None => tr == Begun(id) + [c]
       case Some(h) => tr == Begun(id) + [Acquired(id, h), c, Released(id, h)]
  }

  /** A job about to be closed: abandoned before it did anything, or concluded with its reply on the way. */
  predicate ReadyToClose(job: Job, id: nat, tr: seq<Event>, out: seq<byte>) {
    || (tr == Begun(id) && out == [])
    || (|tr| >= 3 && CommitIn(tr).Committed? && Concluded(tr, id, RequestOf(job), CommitIn(tr).reply)
        && out <= Frame(CommitIn(tr).reply))
  }

  predicate Finished(job: Job, id: nat, tr: seq<Event>, out: seq<byte>) {
    tr != [] && tr[|tr| - 1] == Event.Closed(id) && ReadyToClose(job, id, tr[..|tr| - 1], out)
  }

  /** The trace and the sent bytes that belong to where a worker is. */
  predicate WorkerTrace(job: Job, fs: Fs, w: Worker, tr: seq<Event>, out: seq<byte>) {
    match w
    case Receiving(id, left) => tr == Begun(id) && out == [] && left > 0
    case Closing(id) => ReadyToClose(job, id, tr, out)
    case Handling(id, req, stage) =>
      && req == RequestOf(job)
      && (match stage
          case Ready => tr == Begun(id) && out == []
          case Asleep => tr == Begun(id) && out == []
          case Woken => tr == Begun(id) && out == []
          case Sending(ino, size, elapsed, off) =>
            && HoldOf(req).Some?
            && var reply := FileReply(elapsed, Contents(fs, ino).data);
               tr == Begun(id) + [Acquired(id, HoldOf(req).value), Committed(id, req, reply, Keep)]
               && off <= |Frame(reply)| && out == Frame(reply)[..off]
          case Replying(reply, off) =>
            Concluded(tr, id, req, reply) && off <= |Frame(reply)| && out == Frame(reply)[..off]
          case _ => HoldOf(req).Some? && tr == Begun(id) + [Acquired(id, HoldOf(req).value)] && out == [])
    case _ => true
  }

  /** The number of jobs taken from the queue so far. */
  function TakenCount(s: State): int {
    |s.jobs| - |s.queue|
  }

  predicate Idle(ws: seq<Worker>, id: nat) {
    forall i :: 0 <= i < |ws| ==> Busy(ws[i]) != Some(id)
  }

  predicate JobOk(s: State, id: nat)
    requires id < |s.jobs| == |s.out|
  {
    && (id >= TakenCount(s) ==> Of(s.log, id) == [Submitted(id)] && s.out[id] == [])
    && (id < TakenCount(s) && Idle(s.workers, id) ==> Finished(s.jobs[id], id, Of(s.log, id), s.out[id]))
  }

  predicate WorkerJobOk(s: State, i: nat)
    requires i < |s.workers| && |s.jobs| == |s.out|
  {
    Busy(s.workers[i]).Some? ==>
      var id := Busy(s.workers[i]).value;
      && id < |s.jobs| && id < TakenCount(s)
      && WorkerTrace(s.jobs[id], s.fs, s.workers[i], Of(s.log, id), s.out[id])
  }

  ghost predicate TraceInv(s: State) {
    && |s.out| == |s.jobs| && |s.queue| <= |s.jobs|
    && (forall k :: 0 <= k < |s.queue| ==> s.queue[k] == TakenCount(s) + k)
    && (forall id: nat :: id < |s.jobs| ==> JobOk(s, id))
    && (forall id: nat :: id >= |s.jobs| ==> Of(s.log, id) == [])
    && (forall i: nat :: i < |s.workers| ==> WorkerJobOk(s, i))
    && (forall i, j :: 0 <= i < |s.workers| && 0 <= j < |s.workers| && i != j && Busy(s.workers[i]).Some?
                       ==> Busy(s.workers[i]) != Busy(s.workers[j]))
  }

  // ---------------------------------------------------------------- nobody disturbs a reader

  /** Only the file system calls of a handler touch storage. */
  lemma StorageSteps(s: State, act: Action)
    requires Enabled(s, act) && !(act.Step? && act.choice.Call?)
    ensures Do(s, act).fs == s.fs
  {
  }

  /** No step truncates, writes, unlinks, creates or re-modes a file while some worker holds its read lock. */
  lemma ReaderUndisturbed(a0: Store, s: State, act: Action, i: nat, n: Name)
    requires Simulates(a0, s) && Enabled(s, act) && i < |s.workers| && Held(s.workers[i]) == Some(Hold(n, Read))
    ensures SameAt(s.fs, Do(s, act).fs, n)
  {
    if act.Step? && act.choice.Call? {
      CallBesideReader(Replay(a0, s.log), s, act.w, act.choice.call, i, n);
    } else {
      StorageSteps(s, act);
    }
  }

  lemma CallBesideReader(a: Store, s: State, w: nat, call: FileCall, i: nat, n: Name)
    requires Exclusive(s.workers) && StoreInv(a, s.workers, s.fs) && Enabled(s, Step(w, Call(call)))
    requires i < |s.workers| && Held(s.workers[i]) == Some(Hold(n, Read))
    ensures SameAt(s.fs, DoStep(s, w, Call(call)).fs, n)
  {
    var x := s.workers[w];
    assert WorkerOk(a, s.fs, x);
    CallIsLocal(a, s.fs, x.req, x.stage, call);
    assert Held(x) == HoldOf(x.req);
    var clash := SameName(Held(s.workers[w]), Held(s.workers[i]));
  }

  /** Over any stretch of a run in which a worker keeps a read lock, the file is one single version. */
  lemma {:induction false} OneVersion(a0: Store, s: State, acts: seq<Action>, t: State, i: nat, n: Name)
    requires Simulates(a0, s) && Runs(s, acts, t)
    requires KeepsReadLock(s, acts, i, n)
    ensures FileAt(t.fs, n) == FileAt(s.fs, n)
    decreases |acts|
  {
    if acts != [] {
      SimulationStep(a0, s, acts[0]);
      ReaderUndisturbed(a0, s, acts[0], i, n);
      OneVersion(a0, Do(s, acts[0]), acts[1..], t, i, n);
    }
  }

  /** Worker `i` holds the read lock of `n` before each step of the run. */
  predicate KeepsReadLock(s: State, acts: seq<Action>, i: nat, n: Name)
    decreases |acts|
  {
    acts != [] ==>
      && i < |s.workers| && Held(s.workers[i]) == Some(Hold(n, Read))
      && (Enabled(s, acts[0]) ==> KeepsReadLock(Do(s, acts[0]), acts[1..], i, n))
  }

  // ---------------------------------------------------------------- steps

  /** The three sends of a download put one frame on the wire, cast of the length included. */
  lemma ImageIsFrame(size: nat, elapsed: u64, data: seq<byte>)
    requires size == |data|
    ensures FileHead(size, elapsed) + data == Frame(FileReply(elapsed, data))
  {
    var r := FileReply(elapsed, data);
    assert |r.body| == 8 + size;
  }

  lemma OfOne(log: seq<Event>, es: seq<Event>, id: nat)
    requires forall e :: e in es ==> e.id == id
    ensures Of(log + es, id) == Of(log, id) + es
    ensures forall j: nat :: j != id ==> Of(log + es, j) == Of(log, j)
  {
    OfAll(es, id);
    OfAppend(log, es, id);
    forall j: nat | j != id ensures Of(log + es, j) == Of(log, j) {
      OfAppend(log, es, j);
      assert Of(log, j) + [] == Of(log, j);
    }
  }

  lemma {:induction false} OfAll(es: seq<Event>, id: nat)
    requires forall e :: e in es ==> e.id == id
    ensures Of(es, id) == es
    ensures forall j: nat :: j != id ==> Of(es, j) == []
  {
    if es != [] {
      var last := |es| - 1;
      OfAll(es[..last], id);
      assert es == es[..last] + [es[last]];
    }
  }

  /** Worker `w` moves on with its job `id`, logging `es` and sending `bytes`; nobody else's trace is touched. */
  ghost predicate Advances(s: State, t: State, w: nat, id: nat, es: seq<Event>, bytes: seq<byte>) {
    && |s.out| == |s.jobs| && id < |s.jobs| && w < |s.workers| == |t.workers|
    && t.jobs == s.jobs && t.queue == s.queue
    && t.log == s.log + es && (forall e :: e in es ==> e.id == id)
    && t.out == s.out[id := s.out[id] + bytes]
    && Busy(s.workers[w]) == Some(id) && Busy(t.workers[w]) in {Some(id), None}
    && (forall i :: 0 <= i < |s.workers| && i != w ==>
          Busy(t.workers[i]) == Busy(s.workers[i]) && SameTrace(s, t, i))
  }

  /** A woken sleeper has the trace of a sleeper, and a sender still sees the same bytes. */
  predicate SameTrace(s: State, t: State, i: nat)
    requires i < |s.workers| == |t.workers|
  {
    && (t.workers[i] == s.workers[i]
        || (s.workers[i].Handling? && s.workers[i].stage.Asleep? && t.workers[i] == s.workers[i].(stage := Woken))
        || (s.workers[i] == PoolAsleep && t.workers[i] == PoolWoken))
    && (s.workers[i].Handling? && s.workers[i].stage.Sending? ==>
          Contents(t.fs, s.workers[i].stage.ino) == Contents(s.fs, s.workers[i].stage.ino))
  }

  lemma AdvanceKeeps(s: State, t: State, w: nat, id: nat, es: seq<Event>, bytes: seq<byte>)
    requires TraceInv(s) && Advances(s, t, w, id, es, bytes)
    requires var tr := Of(s.log, id) + es;
             if Busy(t.workers[w]) == None then Finished(s.jobs[id], id, tr, s.out[id] + bytes)
             else WorkerTrace(s.jobs[id], t.fs, t.workers[w], tr, s.out[id] + bytes)
    ensures TraceInv(t)
  {
    OfOne(s.log, es, id);
    assert WorkerJobOk(s, w);
    forall i: nat | i < |t.workers| ensures WorkerJobOk(t, i) {
      if i != w {
        assert WorkerJobOk(s, i) && SameTrace(s, t, i);
      }
    }
    forall j: nat | j < |t.jobs| ensures JobOk(t, j) {
      assert JobOk(s, j);
      if Idle(t.workers, j) && j != id {
        assert Idle(s.workers, j) by {
          forall i | 0 <= i < |s.workers| ensures Busy(s.workers[i]) != Some(j) {
            assert i != w ==> Busy(t.workers[i]) == Busy(s.workers[i]);
          }
        }
      } else if j == id && Busy(t.workers[w]) == Some(id) {
        assert !Idle(t.workers, j);
      }
    }
  }

  /** A step that concerns no job: wakeups, an empty queue, the shutdown flag. */
  lemma NoJobStep(s: State, t: State)
    requires TraceInv(s) && |t.workers| == |s.workers|
    requires t.jobs == s.jobs && t.queue == s.queue && t.log == s.log && t.out == s.out
    requires forall i :: 0 <= i < |s.workers| ==>
               Busy(t.workers[i]) == Busy(s.workers[i]) && (Busy(s.workers[i]).Some? ==> SameTrace(s, t, i))
    ensures TraceInv(t)
  {
    forall i: nat | i < |t.workers| ensures WorkerJobOk(t, i) {
      assert WorkerJobOk(s, i);
    }
    forall j: nat | j < |t.jobs| ensures JobOk(t, j) {
      assert JobOk(s, j);
      if Idle(t.workers, j) {
        assert forall i :: 0 <= i < |s.workers| ==> Busy(s.workers[i]) == Busy(t.workers[i]);
        assert Idle(s.workers, j);
      }
    }
  }

  /** A new job has only been submitted, and nothing was sent to its client; the others see no difference. */
  lemma NewJob(s: State, act: Action)
    requires TraceInv(s) && act.Submit? && Enabled(s, act)
    ensures var t, id := Do(s, act), |s.jobs|;
            && |t.jobs| == |t.out| == id + 1 && TakenCount(t) == TakenCount(s) <= id
            && Of(t.log, id) == [Submitted(id)] && t.out[id] == []
            && (forall j: nat :: j != id ==> Of(t.log, j) == Of(s.log, j))
            && (forall j :: 0 <= j < id ==> t.jobs[j] == s.jobs[j] && t.out[j] == s.out[j])
            && |t.workers| == |s.workers|
            && (forall i :: 0 <= i < |s.workers| ==> Busy(t.workers[i]) == Busy(s.workers[i]) && SameTrace(s, t, i))
  {
    OfOne(s.log, [Submitted(|s.jobs|)], |s.jobs|);
  }

  lemma SubmitKeeps(s: State, act: Action)
    requires TraceInv(s) && act.Submit? && Enabled(s, act)
    ensures TraceInv(Do(s, act))
  {
    var t := Do(s, act);
    NewJob(s, act);
    forall i: nat | i < |t.workers| ensures WorkerJobOk(t, i) {
      assert WorkerJobOk(s, i) && SameTrace(s, t, i);
    }
    forall j: nat | j < |t.jobs| ensures JobOk(t, j) {
      if j < |s.jobs| {
        assert JobOk(s, j);
        if Idle(t.workers, j) {
          assert forall i :: 0 <= i < |s.workers| ==> Busy(s.workers[i]) == Busy(t.workers[i]);
          assert Idle(s.workers, j);
        }
      }
    }
  }

  /** A job is taken by one worker; nobody else is busy with it. */
  lemma TakenJob(s: State, w: nat)
    requires TraceInv(s) && w < |s.workers| && s.queue != [] && Busy(s.workers[w]) == None
    ensures var id := s.queue[0];
            && id < |s.jobs| && DoPoll(s, w).workers == s.workers[w := StartHandling(id, |s.jobs[id].payload|, s.jobs[id])]
            && Of(s.log, id) == [Submitted(id)] && s.out[id] == []
            && forall i :: 0 <= i < |s.workers| ==> Busy(s.workers[i]) != Some(id)
  {
    var id := s.queue[0];
    assert id == TakenCount(s);
    assert JobOk(s, id);
    forall i: nat | i < |s.workers| ensures Busy(s.workers[i]) != Some(id) {
      assert WorkerJobOk(s, i);
    }
  }

  lemma TakeKeeps(s: State, w: nat)
    requires TraceInv(s) && Enabled(s, Step(w, Poll)) && s.queue != [] && Busy(s.workers[w]) == None
    ensures TraceInv(DoPoll(s, w))
  {
    var t := DoPoll(s, w);
    var id := s.queue[0];
    TakenJob(s, w);
    OfOne(s.log, [Taken(id)], id);
    forall i: nat | i < |t.workers| ensures WorkerJobOk(t, i) {
      assert WorkerJobOk(s, i);
    }
    forall j: nat | j < |t.jobs| ensures JobOk(t, j) {
      assert JobOk(s, j);
      if j == id {
        assert Busy(t.workers[w]) == Some(id);
      } else if Idle(t.workers, j) {
        forall i | 0 <= i < |s.workers| ensures Busy(s.workers[i]) != Some(j) {
          assert i != w ==> Busy(t.workers[i]) == Busy(s.workers[i]);
        }
        assert Idle(s.workers, j);
      }
    }
  }

  /** What one step of a handler logs, and what it sends to the client. */
  function Logged(s: State, w: nat, c: Choice): seq<Event>
    requires Enabled(s, Step(w, c))
  {
    DoStep(s, w, c).log[|s.log|..]
  }

  function Outgoing(s: State, w: nat, c: Choice): seq<byte>
    requires Enabled(s, Step(w, c)) && s.workers[w].Handling?
  {
    var x := s.workers[w];
    if c.SendReply? then Frame(x.stage.reply)[x.stage.off..x.stage.off + c.n]
    else if c.SendFile? && x.stage.off + c.n <= 24 + |Contents(s.fs, x.stage.ino).data|
    then (FileHead(x.stage.size, x.stage.elapsed) + Contents(s.fs, x.stage.ino).data)[x.stage.off..x.stage.off + c.n]
    else []
  }

  /** A handler step is about to happen where the invariants hold. */
  ghost predicate Before(a: Store, s: State, w: nat, c: Choice) {
    && |s.jobs| == |s.out| && GoodFs(s.fs)
    && Enabled(s, Step(w, c)) && s.workers[w].Handling?
    && WorkerOk(a, s.fs, s.workers[w]) && WorkerJobOk(s, w)
  }

  /** After the step the worker's place fits its longer trace and its longer output. */
  predicate Follows(s: State, w: nat, c: Choice)
    requires |s.jobs| == |s.out| && Enabled(s, Step(w, c)) && s.workers[w].Handling? && WorkerJobOk(s, w)
  {
    var id, t := s.workers[w].id, DoStep(s, w, c);
    WorkerTrace(s.jobs[id], t.fs, t.workers[w], Of(s.log, id) + Logged(s, w, c), s.out[id] + Outgoing(s, w, c))
  }

  lemma MoreOf(frame: seq<byte>, off: nat, n: nat)
    requires off + n <= |frame|
    ensures frame[..off] + frame[off..off + n] == frame[..off + n]
  {
  }

  /** More of a reply has gone out. */
  lemma ReplySent(job: Job, fs: Fs, x: Worker, n: nat, tr: seq<Event>, out: seq<byte>)
    requires x.Handling? && x.stage.Replying? && WorkerTrace(job, fs, x, tr, out)
    requires x.stage.off + n <= |Frame(x.stage.reply)|
    ensures var reply, off := x.stage.reply, x.stage.off;
            WorkerTrace(job, fs, Handling(x.id, x.req, Replying(reply, off + n)), tr + [],
                        out + Frame(reply)[off..off + n])
  {
    assert tr + [] == tr;
    MoreOf(Frame(x.stage.reply), x.stage.off, n);
  }

  /** More of a download has gone out. */
  lemma FileSent(job: Job, fs: Fs, x: Worker, n: nat, tr: seq<Event>, out: seq<byte>)
    requires x.Handling? && x.stage.Sending? && WorkerTrace(job, fs, x, tr, out)
    requires x.stage.off + n <= |Frame(FileReply(x.stage.elapsed, Contents(fs, x.stage.ino).data))|
    ensures var ino, size, elapsed, off := x.stage.ino, x.stage.size, x.stage.elapsed, x.stage.off;
            WorkerTrace(job, fs, Handling(x.id, x.req, Sending(ino, size, elapsed, off + n)), tr + [],
                        out + Frame(FileReply(elapsed, Contents(fs, ino).data))[off..off + n])
  {
    assert tr + [] == tr;
    MoreOf(Frame(FileReply(x.stage.elapsed, Contents(fs, x.stage.ino).data)), x.stage.off, n);
  }

  lemma SendFileEffect(a: Store, s: State, w: nat, c: Choice)
    requires Before(a, s, w, c) && c.SendFile?
    ensures var x, t := s.workers[w], DoStep(s, w, c);
            var frame := Frame(FileReply(x.stage.elapsed, Contents(s.fs, x.stage.ino).data));
            && x.stage.off + c.n <= |frame| && Outgoing(s, w, c) == frame[x.stage.off..x.stage.off + c.n]
            && t.workers[w] == Handling(x.id, x.req, Sending(x.stage.ino, x.stage.size, x.stage.elapsed, x.stage.off + c.n))
            && t.fs == s.fs && Logged(s, w, c) == []
  {
    var x := s.workers[w];
    ImageIsFrame(x.stage.size, x.stage.elapsed, Contents(s.fs, x.stage.ino).data);
  }

  lemma SendFileFollows(a: Store, s: State, w: nat, c: Choice)
    requires Before(a, s, w, c) && c.SendFile?
    ensures Follows(s, w, c) && DoStep(s, w, c).workers[w].stage.Sending?
  {
    var x := s.workers[w];
    SendFileEffect(a, s, w, c);
    FileSent(s.jobs[x.id], s.fs, x, c.n, Of(s.log, x.id), s.out[x.id]);
  }

  lemma SendReplyEffect(s: State, w: nat, c: Choice)
    requires Enabled(s, Step(w, c)) && s.workers[w].Handling? && c.SendReply?
    ensures var x, t := s.workers[w], DoStep(s, w, c);
            && Outgoing(s, w, c) == Frame(x.stage.reply)[x.stage.off..x.stage.off + c.n]
            && t.workers[w] == Handling(x.id, x.req, Replying(x.stage.reply, x.stage.off + c.n))
            && t.fs == s.fs && Logged(s, w, c) == []
  {
  }

  lemma SendReplyFollows(a: Store, s: State, w: nat, c: Choice)
    requires Before(a, s, w, c) && c.SendReply?
    ensures Follows(s, w, c)
  {
    var x := s.workers[w];
    SendReplyEffect(s, w, c);
    ReplySent(s.jobs[x.id], s.fs, x, c.n, Of(s.log, x.id), s.out[x.id]);
  }

  lemma MapFollows(a: Store, s: State, w: nat, c: Choice)
    requires Before(a, s, w, c) && c.MapFile?
    ensures Follows(s, w, c)
  {
    var x := s.workers[w];
    var h := HoldOf(x.req).value;
    var commit := Committed(x.id, x.req, FileReply(c.elapsed, Contents(s.fs, x.stage.ino).data), Keep);
    assert Logged(s, w, c) == [commit];
    assert Begun(x.id) + [Acquired(x.id, h)] + [commit] == Begun(x.id) + [Acquired(x.id, h), commit];
    assert s.out[x.id] + Outgoing(s, w, c) == [];
  }

  lemma AnswerFollows(a: Store, s: State, w: nat, c: Choice)
    requires Before(a, s, w, c) && c.Answer?
    ensures Follows(s, w, c)
  {
    var x := s.workers[w];
    assert Outgoing(s, w, c) == [];
    assert s.out[x.id] + [] == s.out[x.id];
  }

  lemma AcquireFollows(a: Store, s: State, w: nat, c: Choice)
    requires Before(a, s, w, c) && c.Acquire?
    ensures Follows(s, w, c)
  {
    var x := s.workers[w];
    assert Outgoing(s, w, c) == [];
    assert s.out[x.id] + [] == s.out[x.id];
    if DoStep(s, w, c).log == s.log {
      assert Logged(s, w, c) == [];
      assert Of(s.log, x.id) + [] == Of(s.log, x.id);
    }
  }

  lemma FinishFollows(a: Store, s: State, w: nat, c: Choice)
    requires Before(a, s, w, c) && c.Finish?
    ensures Follows(s, w, c)
  {
    var x := s.workers[w];
    assert Outgoing(s, w, c) == [] && Logged(s, w, c) == [];
    assert s.out[x.id] + [] == s.out[x.id];
    assert Of(s.log, x.id) + [] == Of(s.log, x.id);
  }

  lemma CallFollows(a: Store, s: State, w: nat, c: Choice)
    requires Before(a, s, w, c) && c.Call?
    ensures Follows(s, w, c)
  {
    var x := s.workers[w];
    CallIsLocal(a, s.fs, x.req, x.stage, c.call);
    assert Logged(s, w, c) == [] && Outgoing(s, w, c) == [];
    assert Of(s.log, x.id) + [] == Of(s.log, x.id);
    assert s.out[x.id] + [] == s.out[x.id];
    CallStaysInside(s.fs, x.req, x.stage, c.call);
    CallSendsNothing(s.fs, x.req, x.stage, c.call);
  }

  lemma CallSendsNothing(fs: Fs, req: Request, stage: Stage, call: FileCall)
    requires CallEnabled(fs, req, stage, call)
    ensures !stage.Sending? && !DoCall(fs, req, stage, call).1.Sending?
  {
  }

  /** The trace of a job that has just left its critical section. */
  lemma Leaving(tr: seq<Event>, id: nat, req: Request, commit: Event)
    requires HoldOf(req).Some? && commit.Committed? && commit.id == id && commit.req == req
    requires tr == Begun(id) + [Acquired(id, HoldOf(req).value)]
    ensures Concluded(tr + [commit, Released(id, HoldOf(req).value)], id, req, commit.reply)
    ensures CommitIn(tr + [commit, Released(id, HoldOf(req).value)]) == commit
  {
  }

  /** After an upload, delete or chmod, or a download that failed. */
  lemma SettledFollows(a: Store, s: State, w: nat, c: Choice)
    requires Before(a, s, w, c) && c.Release? && s.workers[w].stage.Settled?
    ensures Follows(s, w, c)
  {
    var x := s.workers[w];
    var commit := Committed(x.id, x.req, Timed(x.req, x.stage.reply, c.times), x.stage.effect);
    assert Logged(s, w, c) == [commit, Released(x.id, HoldOf(x.req).value)] && Outgoing(s, w, c) == [];
    Leaving(Of(s.log, x.id), x.id, x.req, commit);
  }

  /** After a download, sent in full or not. */
  lemma SentFollows(a: Store, s: State, w: nat, c: Choice)
    requires Before(a, s, w, c) && c.Release? && s.workers[w].stage.Sending?
    ensures Follows(s, w, c)
  {
    var x := s.workers[w];
    var h := HoldOf(x.req).value;
    var commit := Committed(x.id, x.req, FileReply(x.stage.elapsed, Contents(s.fs, x.stage.ino).data), Keep);
    assert Logged(s, w, c) == [Released(x.id, h)] && Outgoing(s, w, c) == [];
    Leaving(Begun(x.id) + [Acquired(x.id, h)], x.id, x.req, commit);
    assert Of(s.log, x.id) + [Released(x.id, h)] == Begun(x.id) + [Acquired(x.id, h)] + [commit, Released(x.id, h)];
    assert s.out[x.id] + [] == s.out[x.id];
  }

  lemma HandlerFollows(a: Store, s: State, w: nat, c: Choice)
    requires Before(a, s, w, c)
    ensures Follows(s, w, c)
  {
    if c.SendFile? {
      SendFileFollows(a, s, w, c);
    } else if c.SendReply? {
      SendReplyFollows(a, s, w, c);
    } else if c.MapFile? {
      MapFollows(a, s, w, c);
    } else if c.Call? {
      CallFollows(a, s, w, c);
    } else if c.Release? {
      if s.workers[w].stage.Settled? {
        SettledFollows(a, s, w, c);
      } else {
        SentFollows(a, s, w, c);
      }
    } else if c.Answer? {
      AnswerFollows(a, s, w, c);
    } else if c.Acquire? {
      AcquireFollows(a, s, w, c);
    } else {
      FinishFollows(a, s, w, c);
    }
  }

  /** The other workers' view of a step: woken at most. */
  lemma OthersWoken(s: State, w: nat, c: Choice, i: nat)
    requires Enabled(s, Step(w, c)) && i < |s.workers| && i != w
    ensures var t := DoStep(s, w, c);
            && |t.workers| == |s.workers| && Busy(t.workers[i]) == Busy(s.workers[i])
            && (t.workers[i] == s.workers[i] ||
                (s.workers[i].Handling? && s.workers[i].stage.Asleep? && t.workers[i] == s.workers[i].(stage := Woken)))
  {
  }

  /** And a sender's file is untouched. */
  lemma OthersTrace(a0: Store, s: State, w: nat, c: Choice, i: nat)
    requires Simulates(a0, s) && Enabled(s, Step(w, c)) && i < |s.workers| && i != w
    ensures var t := DoStep(s, w, c);
            |t.workers| == |s.workers| && Busy(t.workers[i]) == Busy(s.workers[i]) && SameTrace(s, t, i)
  {
    var x := s.workers[i];
    OthersWoken(s, w, c, i);
    if x.Handling? && x.stage.Sending? {
      assert WorkerOk(Replay(a0, s.log), s.fs, x);
      ReaderUndisturbed(a0, s, Step(w, c), i, x.req.name);
    }
  }

  lemma HandlerOut(s: State, w: nat, c: Choice)
    requires Enabled(s, Step(w, c)) && s.workers[w].Handling? && s.workers[w].id < |s.out|
    requires c.SendFile? ==> !DoStep(s, w, c).workers[w].stage.Faulted?
    ensures var id := s.workers[w].id; DoStep(s, w, c).out == s.out[id := s.out[id] + Outgoing(s, w, c)]
  {
    var id := s.workers[w].id;
    assert s.out[id] + [] == s.out[id];
    assert s.out[id := s.out[id]] == s.out;
  }

  lemma HandlerAdvances(a0: Store, s: State, w: nat, c: Choice)
    requires Simulates(a0, s) && Before(Replay(a0, s.log), s, w, c)
    ensures Advances(s, DoStep(s, w, c), w, s.workers[w].id, Logged(s, w, c), Outgoing(s, w, c))
  {
    var t := DoStep(s, w, c);
    if c.SendFile? {
      SendFileFollows(Replay(a0, s.log), s, w, c);
    }
    HandlerOut(s, w, c);
    HandlerEvents(s, w, c);
    forall i | 0 <= i < |s.workers| && i != w
      ensures Busy(t.workers[i]) == Busy(s.workers[i]) && SameTrace(s, t, i)
    {
      OthersTrace(a0, s, w, c, i);
    }
  }

  lemma InvGivesBefore(a0: Store, s: State, w: nat, c: Choice)
    requires Simulates(a0, s) && TraceInv(s) && Enabled(s, Step(w, c)) && s.workers[w].Handling?
    ensures Before(Replay(a0, s.log), s, w, c)
  {
    assert WorkerOk(Replay(a0, s.log), s.fs, s.workers[w]) && WorkerJobOk(s, w);
  }

  lemma FollowingKeeps(s: State, w: nat, c: Choice)
    requires TraceInv(s) && Enabled(s, Step(w, c)) && s.workers[w].Handling? && WorkerJobOk(s, w)
    requires Follows(s, w, c) && Busy(DoStep(s, w, c).workers[w]).Some?
    requires Advances(s, DoStep(s, w, c), w, s.workers[w].id, Logged(s, w, c), Outgoing(s, w, c))
    ensures TraceInv(DoStep(s, w, c))
  {
    AdvanceKeeps(s, DoStep(s, w, c), w, s.workers[w].id, Logged(s, w, c), Outgoing(s, w, c));
  }

  lemma HandlerTrace(a0: Store, s: State, w: nat, c: Choice)
    requires Simulates(a0, s) && TraceInv(s) && Enabled(s, Step(w, c)) && s.workers[w].Handling?
    ensures TraceInv(DoStep(s, w, c))
  {
    InvGivesBefore(a0, s, w, c);
    HandlerAdvances(a0, s, w, c);
    HandlerFollows(Replay(a0, s.log), s, w, c);
    HandlerEvents(s, w, c);
    FollowingKeeps(s, w, c);
  }

  lemma HandlerEvents(s: State, w: nat, c: Choice)
    requires Enabled(s, Step(w, c)) && s.workers[w].Handling?
    ensures var t, id := DoStep(s, w, c), s.workers[w].id;
            && t.log == s.log + Logged(s, w, c) && (forall e :: e in Logged(s, w, c) ==> e.id == id)
            && t.jobs == s.jobs && t.queue == s.queue && Busy(t.workers[w]) == Some(id)
  {
  }

  lemma ReceiveTrace(s: State, w: nat, c: Choice)
    requires TraceInv(s) && Enabled(s, Step(w, c)) && s.workers[w].Receiving?
    ensures TraceInv(DoStep(s, w, c))
  {
    var id := s.workers[w].id;
    assert WorkerJobOk(s, w);
    assert s.out[id] + [] == s.out[id];
    assert s.out[id := s.out[id]] == s.out;
    assert s.log + [] == s.log && Of(s.log, id) + [] == Of(s.log, id);
    AdvanceKeeps(s, DoStep(s, w, c), w, id, [], []);
  }

  lemma CloseTrace(s: State, w: nat, c: Choice)
    requires TraceInv(s) && Enabled(s, Step(w, c)) && s.workers[w].Closing?
    ensures TraceInv(DoStep(s, w, c))
  {
    var id := s.workers[w].id;
    assert WorkerJobOk(s, w);
    assert s.out[id] + [] == s.out[id];
    assert s.out[id := s.out[id]] == s.out;
    var tr := Of(s.log, id) + [Event.Closed(id)];
    assert tr[..|tr| - 1] == Of(s.log, id);
    AdvanceKeeps(s, DoStep(s, w, c), w, id, [Event.Closed(id)], []);
  }

  /** Every step of the server keeps every job's trace and every client's bytes in order. */
  lemma TraceStep(a0: Store, s: State, act: Action)
    requires Simulates(a0, s) && TraceInv(s) && Enabled(s, act)
    ensures TraceInv(Do(s, act))
  {
    match act
    case Submit(job, wake) => SubmitKeeps(s, act);
    case Shutdown => NoJobStep(s, Do(s, act));
    case SpuriousPool(w) => NoJobStep(s, Do(s, act));
    case SpuriousLock(w) => NoJobStep(s, Do(s, act));
    case Step(w, c) =>
      var x := s.workers[w];
      if x.Handling? {
        HandlerTrace(a0, s, w, c);
      } else if x.Receiving? {
        ReceiveTrace(s, w, c);
      } else if x.Closing? {
        CloseTrace(s, w, c);
      } else if s.queue == [] {
        NoJobStep(s, Do(s, act));
      } else {
        TakeKeeps(s, w);
      }
  }

  // ---------------------------------------------------------------- whole runs

  /** Everything that is kept by every step of the server. */
  ghost predicate Inv(a0: Store, s: State) {
    Simulates(a0, s) && TraceInv(s)
  }

  lemma {:induction false} RunKeepsInv(a0: Store, s: State, acts: seq<Action>, t: State)
    requires Inv(a0, s) && Runs(s, acts, t)
    ensures Inv(a0, t) && s.log <= t.log && s.jobs <= t.jobs
    decreases |acts|
  {
    if acts != [] {
      var u := Do(s, acts[0]);
      SimulationStep(a0, s, acts[0]);
      TraceStep(a0, s, acts[0]);
      HistoryGrows(s, acts[0]);
      RunKeepsInv(a0, u, acts[1..], t);
    }
  }

  lemma HistoryGrows(s: State, act: Action)
    requires Enabled(s, act)
    ensures s.log <= Do(s, act).log && s.jobs <= Do(s, act).jobs
  {
    if act.Step? && s.workers[act.w].Handling? {
      HandlerEvents(s, act.w, act.choice);
    }
  }

  lemma Reachable(s: State, acts: seq<Action>, t: State)
    requires Init(s) && Runs(s, acts, t)
    ensures Inv(View(s.fs), t)
  {
    InitSimulates(s);
    RunKeepsInv(View(s.fs), s, acts, t);
  }

  // ---------------------------------------------------------------- what a client can conclude

  lemma {:induction false} OfMember(log: seq<Event>, id: nat, e: Event)
    requires e in Of(log, id)
    ensures e in log && e.id == id
  {
    var last := |log| - 1;
    if e in Of(log[..last], id) {
      OfMember(log[..last], id, e);
    }
  }

  /** A trace that has sent `out` contains the commit whose reply those bytes belong to. */
  predicate Explains(job: Job, id: nat, tr: seq<Event>, out: seq<byte>) {
    out != [] ==>
      && |tr| >= 3 && CommitIn(tr).Committed? && CommitIn(tr).id == id && CommitIn(tr).req == RequestOf(job)
      && out <= Frame(CommitIn(tr).reply)
  }

  lemma ReadyExplains(job: Job, id: nat, tr: seq<Event>, out: seq<byte>)
    requires ReadyToClose(job, id, tr, out)
    ensures Explains(job, id, tr, out)
  {
  }

  lemma WorkerExplains(job: Job, fs: Fs, w: Worker, tr: seq<Event>, out: seq<byte>)
    requires Busy(w).Some? && WorkerTrace(job, fs, w, tr, out)
    ensures Explains(job, Busy(w).value, tr, out)
  {
    if w.Closing? {
      ReadyExplains(job, w.id, tr, out);
    } else if w.Handling? && w.stage.Replying? {
      assert CommitIn(tr) in tr;
    }
  }

  lemma FinishedExplains(job: Job, id: nat, tr: seq<Event>, out: seq<byte>)
    requires Finished(job, id, tr, out)
    ensures Explains(job, id, tr[..|tr| - 1], out)
  {
    ReadyExplains(job, id, tr[..|tr| - 1], out);
  }

  /** Every byte a client has received comes from the one committed reply to its request. */
  lemma BytesAreCommitted(a0: Store, s: State, id: nat) returns (k: nat)
    requires Inv(a0, s) && id < |s.jobs| && s.out[id] != []
    ensures k < |s.log| && s.log[k].Committed? && s.log[k].id == id && s.log[k].req == RequestOf(s.jobs[id])
    ensures s.out[id] <= Frame(s.log[k].reply)
    ensures Legal(Replay(a0, s.log[..k]), s.log[k].req, s.log[k].reply, s.log[k].effect)
  {
    var tr := Of(s.log, id);
    assert JobOk(s, id);
    var c;
    if Idle(s.workers, id) {
      FinishedExplains(s.jobs[id], id, tr, s.out[id]);
      c := CommitIn(tr[..|tr| - 1]);
    } else {
      var i :| 0 <= i < |s.workers| && Busy(s.workers[i]) == Some(id);
      assert WorkerJobOk(s, i);
      WorkerExplains(s.jobs[id], s.fs, s.workers[i], tr, s.out[id]);
      c := CommitIn(tr);
    }
    OfMember(s.log, id, c);
    k :| 0 <= k < |s.log| && s.log[k] == c;
    LegalAt(a0, s.log, k);
  }

  /** Each commit of a legal log is legal where it stands. */
  lemma {:induction false} LegalAt(a0: Store, log: seq<Event>, k: nat)
    requires AllLegal(a0, log) && k < |log| && log[k].Committed?
    ensures Legal(Replay(a0, log[..k]), log[k].req, log[k].reply, log[k].effect)
  {
    var last := |log| - 1;
    if k < last {
      LegalAt(a0, log[..last], k);
      assert log[..last][..k] == log[..k];
    }
  }
}
