/**
  The main results about the concurrent store, over whole runs from the start of the server: the log of commits
  is a linearization, and every client's bytes belong to it.
*/
module Linearizability {
  import opened Bytes
  import opened Protocol
  import opened Payloads
  import opened LockRules
  import opened Server
  import opened LockSafety
  import opened Atomicity
  import opened Traces

  /** The one life a served request can have. */
  function FullLife(id: nat, req: Request, commit: Event): seq<Event> {
    match HoldOf(req)
    case None => Begun(id) + [commit, Event.Closed(id)]
    case Some(h) => Begun(id) + [Acquired(id, h), commit, Released(id, h), Event.Closed(id)]
  }

  /** The life of a request whose payload never arrived. */
  function AbortedLife(id: nat): seq<Event> {
    Begun(id) + [Event.Closed(id)]
  }

  ghost predicate Lifecycle(tr: seq<Event>, id: nat, req: Request) {
    || tr <= AbortedLife(id)
    || exists commit: Event :: commit.Committed? && commit.id == id && commit.req == req
                               && tr <= FullLife(id, req, commit)
  }

  lemma ConcludedLife(tr: seq<Event>, id: nat, req: Request, reply: Reply)
    requires Concluded(tr, id, req, reply)
    ensures Lifecycle(tr, id, req) && Lifecycle(tr + [Event.Closed(id)], id, req)
  {
    var commit := CommitIn(tr);
    assert tr + [Event.Closed(id)] == FullLife(id, req, commit);
  }

  /** A job about to be closed, and once it is. */
  lemma ReadyLife(job: Job, id: nat, tr: seq<Event>, out: seq<byte>)
    requires ReadyToClose(job, id, tr, out)
    ensures Lifecycle(tr, id, RequestOf(job)) && Lifecycle(tr + [Event.Closed(id)], id, RequestOf(job))
  {
    if tr == Begun(id) {
      assert tr + [Event.Closed(id)] == AbortedLife(id);
    } else {
      ConcludedLife(tr, id, RequestOf(job), CommitIn(tr).reply);
    }
  }

  lemma FinishedLife(job: Job, id: nat, tr: seq<Event>, out: seq<byte>)
    requires Finished(job, id, tr, out)
    ensures Lifecycle(tr, id, RequestOf(job))
  {
    var before := tr[..|tr| - 1];
    ReadyLife(job, id, before, out);
    assert tr == before + [Event.Closed(id)];
  }

  lemma WorkerLife(job: Job, fs: Fs, w: Worker, tr: seq<Event>, out: seq<byte>)
    requires Busy(w).Some? && WorkerTrace(job, fs, w, tr, out)
    ensures Lifecycle(tr, Busy(w).value, RequestOf(job))
  {
    var id, req := Busy(w).value, RequestOf(job);
    if w.Closing? {
      ReadyLife(job, id, tr, out);
    } else if w.Handling? && w.stage.Replying? {
      ConcludedLife(tr, id, req, w.stage.reply);
    } else if w.Handling? && InSection(w.stage) {
      var commit := if w.stage.Sending? then tr[3] else Committed(id, req, OkReply(0), Keep);
      assert tr <= FullLife(id, req, commit);
    }
  }

  /** Each submitted request lives one of the two lives, or is on its way through one. */
  lemma JobLifecycle(a0: Store, s: State, id: nat)
    requires Inv(a0, s) && id < |s.jobs|
    ensures Lifecycle(Of(s.log, id), id, RequestOf(s.jobs[id]))
  {
    assert JobOk(s, id);
    if id >= TakenCount(s) {
      assert Of(s.log, id) <= AbortedLife(id);
    } else if Idle(s.workers, id) {
      FinishedLife(s.jobs[id], id, Of(s.log, id), s.out[id]);
    } else {
      var i :| 0 <= i < |s.workers| && Busy(s.workers[i]) == Some(id);
      assert WorkerJobOk(s, i);
      WorkerLife(s.jobs[id], s.fs, s.workers[i], Of(s.log, id), s.out[id]);
    }
  }

  /** The position of a log entry among the events of its job. */
  function Position(log: seq<Event>, k: nat): nat
    requires k < |log|
  {
    |Of(log[..k], log[k].id)|
  }

  lemma PositionOf(log: seq<Event>, k: nat)
    requires k < |log|
    ensures Position(log, k) < |Of(log, log[k].id)| && Of(log, log[k].id)[Position(log, k)] == log[k]
  {
    var id := log[k].id;
    assert log[..k + 1][..k] == log[..k];
    assert log == log[..k + 1] + log[k + 1..];
    OfAppend(log[..k + 1], log[k + 1..], id);
  }

  /** Log order and the order within a job's trace agree. */
  lemma PositionOrder(log: seq<Event>, k: nat, l: nat)
    requires k < l < |log| && log[k].id == log[l].id
    ensures Position(log, k) < Position(log, l)
  {
    PositionOf(log[..l], k);
    assert log[..l][..k] == log[..k];
  }

  lemma SubmittedIds(a0: Store, s: State, k: nat)
    requires Inv(a0, s) && k < |s.log|
    ensures s.log[k].id < |s.jobs|
  {
    PositionOf(s.log, k);
  }

  lemma CommitPlace(tr: seq<Event>, id: nat, req: Request, p: nat, q: nat)
    requires Lifecycle(tr, id, req) && p < |tr| && q < |tr| && tr[p].Committed?
    ensures tr[p].id == id && tr[p].req == req
    ensures tr[q].Submitted? || tr[q].Taken? || tr[q].Acquired? ==> q < p
    ensures tr[q].Released? || tr[q].Closed? ==> p < q
    ensures tr[q].Committed? ==> q == p
    ensures tr[q].Acquired? || tr[q].Released? ==> Some(tr[q].hold) == HoldOf(req)
  {
  }

  /**
    A commit stands for its own request, happens once, after the submit and inside the critical section on the
    request's own name, and before the connection is closed.
  */
  lemma CommitInside(a0: Store, s: State, k: nat, l: nat)
    requires Inv(a0, s) && k < |s.log| && l < |s.log| && s.log[k].Committed? && s.log[l].id == s.log[k].id
    ensures s.log[k].id < |s.jobs| && s.log[k].req == RequestOf(s.jobs[s.log[k].id])
    ensures s.log[l].Submitted? || s.log[l].Taken? || s.log[l].Acquired? ==> l < k
    ensures s.log[l].Released? || s.log[l].Closed? ==> k < l
    ensures s.log[l].Committed? ==> l == k
    ensures s.log[l].Acquired? || s.log[l].Released? ==> Some(s.log[l].hold) == HoldOf(s.log[k].req)
  {
    var id := s.log[k].id;
    SubmittedIds(a0, s, k);
    JobLifecycle(a0, s, id);
    PositionOf(s.log, k);
    PositionOf(s.log, l);
    CommitPlace(Of(s.log, id), id, RequestOf(s.jobs[id]), Position(s.log, k), Position(s.log, l));
    if k < l {
      PositionOrder(s.log, k, l);
    } else if l < k {
      PositionOrder(s.log, l, k);
    }
  }

  /** Real time is respected: a request whose connection was closed before another was submitted commits first. */
  lemma RealTimeOrder(a0: Store, s: State, k: nat, closed: nat, submitted: nat, l: nat)
    requires Inv(a0, s) && k < |s.log| && l < |s.log| && s.log[k].Committed? && s.log[l].Committed?
    requires closed < submitted < |s.log| && s.log[closed].Closed? && s.log[submitted].Submitted?
    requires s.log[closed].id == s.log[k].id && s.log[submitted].id == s.log[l].id
    ensures k < l
  {
    CommitInside(a0, s, k, closed);
    CommitInside(a0, s, l, submitted);
  }

  /** A job submitted later has no event in an earlier log. */
  lemma LaterJobLaterEvents(a0: Store, s: State, t: State, d: nat, m: nat)
    requires Inv(a0, s) && s.log <= t.log && d >= |s.jobs| && m < |t.log| && t.log[m].id == d
    ensures m >= |s.log|
  {
    if m < |s.log| {
      SubmittedIds(a0, s, m);
    }
  }

  /**
    And as the clients see it: a request whose client had any byte of its response before another was submitted
    commits first.
  */
  lemma ResponseOrder(start: State, acts: seq<Action>, s: State, acts': seq<Action>, t: State,
                      u: nat, k: nat, m: nat)
    requires Init(start) && Runs(start, acts, s) && Runs(s, acts', t)
    requires u < |s.jobs| && u < |s.out| && s.out[u] != []
    requires k < |t.log| && t.log[k].Committed? && t.log[k].id == u
    requires m < |t.log| && t.log[m].Committed? && t.log[m].id >= |s.jobs|
    ensures k < |s.log| <= m
  {
    var a0 := View(start.fs);
    Reachable(start, acts, s);
    RunKeepsInv(a0, s, acts', t);
    var k' := BytesAreCommitted(a0, s, u);
    assert t.log[k'] == s.log[k'];
    CommitInside(a0, t, k, k');
    LaterJobLaterEvents(a0, s, t, t.log[m].id, m);
  }

  /**
    Linearizability. In every run the commits, in log order, are legal requests on an atomic store that starts
    with the initial files, and the storage directory shows that store wherever no writer is at work.
  */
  lemma Linearizable(s: State, acts: seq<Action>, t: State)
    requires Init(s) && Runs(s, acts, t)
    ensures AllLegal(View(s.fs), t.log)
    ensures forall n :: Unwritten(t.workers, n) ==> FileAt(t.fs, n) == LookUp(Replay(View(s.fs), t.log), n)
    ensures Inv(View(s.fs), t)
  {
    Reachable(s, acts, t);
  }

  /** In every reachable state the counters of the lock table are the holders, and a writer is alone. */
  lemma LocksAccounted(s: State, acts: seq<Action>, t: State, n: Name)
    requires Init(s) && Runs(s, acts, t)
    ensures EntryAt(t.locks, n).writers == |Holders(t.workers, Hold(n, Write))| <= 1
    ensures EntryAt(t.locks, n).readers == |Holders(t.workers, Hold(n, Read))|
    ensures EntryAt(t.locks, n).writers == 0 || EntryAt(t.locks, n).readers == 0
  {
    Reachable(s, acts, t);
    assert Accounted(t.workers, t.locks, n);
  }

  /** No download ever touches a page past the end of its file, and no file outgrows a 32-bit reply. */
  lemma DownloadsAreSafe(s: State, acts: seq<Action>, t: State, w: nat)
    requires Init(s) && Runs(s, acts, t) && w < |t.workers|
    ensures t.workers[w].Handling? ==> !t.workers[w].stage.Faulted?
    ensures forall ino :: ino in t.fs.inodes ==>
              Wrap32(8 + |t.fs.inodes[ino].data|) == 8 + |t.fs.inodes[ino].data|
  {
    Reachable(s, acts, t);
    assert WorkerOk(Replay(View(s.fs), t.log), t.fs, t.workers[w]);
  }

  /** What a client has been sent of a file of `data`: the first `off` bytes of its response. */
  predicate SentOf(t: State, w: nat, data: seq<byte>)
    requires w < |t.workers| && t.workers[w].Handling? && t.workers[w].stage.Sending?
  {
    var x := t.workers[w];
    var frame := Frame(FileReply(x.stage.elapsed, data));
    && x.id < |t.out| && x.stage.size == |data| && x.stage.off <= |frame|
    && t.out[x.id] == frame[..x.stage.off]
    && |data| <= MAX_FILE
  }

  /** What a sending worker has sent is the start of the response for the file as it is now. */
  lemma SendingShowsFile(a0: Store, t: State, w: nat, n: Name)
    requires Inv(a0, t) && w < |t.workers| && Held(t.workers[w]) == Some(Hold(n, Read))
    requires t.workers[w].Handling? && t.workers[w].stage.Sending?
    ensures FileAt(t.fs, n).Some? && SentOf(t, w, FileAt(t.fs, n).value.data)
  {
    assert WorkerOk(Replay(a0, t.log), t.fs, t.workers[w]);
    assert WorkerJobOk(t, w);
  }

  /**
    A download is never torn. From the moment its read lock is granted, however the sends are cut and whatever
    the other workers do, the bytes sent are those of the one version the file had then.
  */
  lemma DownloadIsOneVersion(a0: Store, s: State, acts: seq<Action>, t: State, w: nat, n: Name)
    requires Inv(a0, s) && Runs(s, acts, t) && KeepsReadLock(s, acts, w, n)
    requires w < |s.workers| && s.workers[w].Handling? && s.workers[w].stage.Locked?
    requires w < |t.workers| && Held(t.workers[w]) == Some(Hold(n, Read))
    requires t.workers[w].Handling? && t.workers[w].stage.Sending?
    ensures FileAt(s.fs, n).Some? && SentOf(t, w, FileAt(s.fs, n).value.data)
  {
    RunKeepsInv(a0, s, acts, t);
    OneVersion(a0, s, acts, t, w, n);
    SendingShowsFile(a0, t, w, n);
  }

  /**
    What a download puts on the wire for a file of any 64-bit size: the size prefix and the bytes are right, and
    the length in the header is right exactly when it fits 32 bits.
  */
  lemma DownloadLengthAgrees(elapsed: u64, data: seq<byte>)
    requires |data| < TWO_64
    ensures var image := FileHead(|data|, elapsed) + data;
            && ParseHeader(image) == Some(Header(MAGIC, VERSION, RESP_FILE_DATA, Wrap32(8 + |data|), elapsed))
            && (ParseHeader(image).value.payloadLen == |image| - HEADER_SIZE <==> 8 + |data| < TWO_32)
            && Value(image[16..24]) == |data| && image[24..] == data
  {
    var h := Header(MAGIC, VERSION, RESP_FILE_DATA, Wrap32(8 + |data|), elapsed);
    var image := FileHead(|data|, elapsed) + data;
    HeaderRoundTrip(h, Big(8, |data|) + data);
    assert image == SerializeHeader(h) + (Big(8, |data|) + data);
    assert image[16..24] == Big(8, |data|);
    FieldRoundTrip(|data|);
  }

  /**
    A waiting writer does not hold readers back: a read lock is granted exactly when no write lock is held,
    whoever sleeps on the name.
  */
  lemma ReadersPassWaitingWriters(a0: Store, s: State, w: nat, n: Name)
    requires Inv(a0, s) && Enabled(s, Step(w, Acquire)) && HoldOf(s.workers[w].req) == Some(Hold(n, Read))
    ensures Held(DoStep(s, w, Acquire).workers[w]) == Some(Hold(n, Read)) <==> Holders(s.workers, Hold(n, Write)) == {}
  {
    assert Accounted(s.workers, s.locks, n);
  }
}
