/**
  Half-written files: exactly when the store holds all of an upload after it, and exactly when a later download is
  all of it. The condition can be read off the upload's own response.
*/
module WholeFiles {
  import opened Bytes
  import opened Protocol
  import opened Payloads
  import opened Server
  import opened Atomicity
  import opened Traces
  import opened Linearizability

  /** The bytes of a file in the atomic store. */
  function DataIn(a: Store, n: Name): Option<seq<byte>> {
    if n in a then Some(a[n].data) else None
  }

  /**
    The condition: the upload was answered with success; or there was nothing to write and the file was opened;
    or it was not opened and already held the data.
  */
  predicate Whole(before: Option<seq<byte>>, data: seq<byte>, reply: Reply) {
    || reply.opcode == RESP_OK
    || (data == [] && reply != OpenFailed())
    || (reply == OpenFailed() && before == Some(data))
  }

  /** The three error replies of an upload are three different messages. */
  lemma ErrorsDiffer()
    ensures OpenFailed() != LockFailed() && OpenFailed() != WriteFailed() && LockFailed() != WriteFailed()
  {
    assert OpenFailed().body[14] == 111 && LockFailed().body[14] == 108;
    assert |OpenFailed().body| == |LockFailed().body| == 23 && |WriteFailed().body| == 29;
  }

  /** Every legal outcome of an upload: the store holds its data afterwards if and only if the condition holds. */
  lemma WholeAfterUpload(a: Store, name: Name, data: seq<byte>, reply: Reply, e: Effect)
    requires Legal(a, Upload(name, data), reply, e)
    ensures DataIn(Apply(a, e), name) == Some(data) <==> Whole(DataIn(a, name), data, reply)
  {
    ErrorsDiffer();
  }

  /** In every reachable state, at every commit of an upload. */
  lemma UploadIsWhole(start: State, acts: seq<Action>, s: State, k: nat)
    requires Init(start) && Runs(start, acts, s) && k < |s.log| && s.log[k].Committed? && s.log[k].req.Upload?
    ensures var a, req := Replay(View(start.fs), s.log[..k]), s.log[k].req;
            DataIn(Replay(View(start.fs), s.log[..k + 1]), req.name) == Some(req.data) <==>
            Whole(DataIn(a, req.name), req.data, s.log[k].reply)
  {
    var a0 := View(start.fs);
    Reachable(start, acts, s);
    LegalAt(a0, s.log, k);
    assert s.log[..k + 1][..k] == s.log[..k];
    WholeAfterUpload(Replay(a0, s.log[..k]), s.log[k].req.name, s.log[k].req.data, s.log[k].reply, s.log[k].effect);
  }

  // ---------------------------------------------------------------- until the download

  predicate Rewrites(e: Event, n: Name) {
    && e.Committed? && !e.effect.Keep?
    && ((e.req.Upload? && e.req.name == n) || (e.req.Delete? && e.req.name == n))
  }

  /** Strictly between two positions no upload and no delete of `n` took effect; it may have been re-moded. */
  predicate NoRewrite(log: seq<Event>, k: nat, m: nat, n: Name)
    requires m <= |log|
  {
    forall i :: k < i < m ==> !Rewrites(log[i], n)
  }

  lemma LegalKeepsData(a: Store, e: Event, n: Name)
    requires e.Committed? && Legal(a, e.req, e.reply, e.effect) && !Rewrites(e, n)
    ensures DataIn(Apply(a, e.effect), n) == DataIn(a, n)
  {
  }

  lemma {:induction false} DataKept(a0: Store, log: seq<Event>, k: nat, m: nat, n: Name)
    requires AllLegal(a0, log) && k < m <= |log| && NoRewrite(log, k, m, n)
    ensures DataIn(Replay(a0, log[..m]), n) == DataIn(Replay(a0, log[..k + 1]), n)
  {
    if m > k + 1 {
      DataKept(a0, log, k, m - 1, n);
      assert log[..m][..m - 1] == log[..m - 1];
      if log[m - 1].Committed? {
        LegalAt(a0, log, m - 1);
        LegalKeepsData(Replay(a0, log[..m - 1]), log[m - 1], n);
      }
    }
  }

  /**
    In every run: a download that finds the file as the last upload before it left it returns all of that upload
    if and only if the upload's response says so.
  */
  lemma DownloadIsWhole(start: State, acts: seq<Action>, s: State, k: nat, m: nat)
      returns (elapsed: u64, bytes: seq<byte>)
    requires Init(start) && Runs(start, acts, s) && k < m < |s.log|
    requires s.log[k].Committed? && s.log[k].req.Upload?
    requires s.log[m].Committed? && s.log[m].req == Download(s.log[k].req.name)
    requires s.log[m].reply.opcode == RESP_FILE_DATA && NoRewrite(s.log, k, m, s.log[k].req.name)
    ensures s.log[m].reply == FileReply(elapsed, bytes)
    ensures DataIn(Replay(View(start.fs), s.log[..m]), s.log[m].req.name) == Some(bytes)
    ensures bytes == s.log[k].req.data <==>
            Whole(DataIn(Replay(View(start.fs), s.log[..k]), s.log[k].req.name), s.log[k].req.data, s.log[k].reply)
  {
    var a0, name := View(start.fs), s.log[k].req.name;
    Reachable(start, acts, s);
    UploadIsWhole(start, acts, s, k);
    DataKept(a0, s.log, k, m, name);
    LegalAt(a0, s.log, m);
    var a := Replay(a0, s.log[..m]);
    bytes := a[name].data;
    elapsed :| s.log[m].reply == FileReply(elapsed, a[name].data);
  }

  /** In every run: after a delete that took effect, a download finds nothing until an upload took effect. */
  lemma DeletedIsNotFound(start: State, acts: seq<Action>, s: State, k: nat, m: nat)
    requires Init(start) && Runs(start, acts, s) && k < m < |s.log|
    requires s.log[k].Committed? && s.log[k].req.Delete? && !s.log[k].effect.Keep?
    requires s.log[m].Committed? && s.log[m].req == Download(s.log[k].req.name)
    requires NoRewrite(s.log, k, m, s.log[k].req.name)
    ensures s.log[m].reply == ErrReply(404, "file not found")
  {
    var a0, name := View(start.fs), s.log[k].req.name;
    Reachable(start, acts, s);
    LegalAt(a0, s.log, k);
    LegalAt(a0, s.log, m);
    assert s.log[..k + 1][..k] == s.log[..k];
    DataKept(a0, s.log, k, m, name);
  }

  // ---------------------------------------------------------------- sizes

  predicate Fits(a: Store) {
    forall n :: n in a ==> |a[n].data| <= MAX_FILE
  }

  lemma LegalFits(a: Store, e: Event)
    requires Fits(a) && e.Committed? && WellFormed(e.req) && Legal(a, e.req, e.reply, e.effect)
    ensures Fits(Apply(a, e.effect))
  {
  }

  /** At every point of every run each file of the atomic store is small enough for a 32-bit reply. */
  lemma {:induction false} StoreFits(start: State, acts: seq<Action>, s: State, m: nat)
    requires Init(start) && Runs(start, acts, s) && m <= |s.log|
    ensures Fits(Replay(View(start.fs), s.log[..m]))
  {
    if m > 0 {
      StoreFits(start, acts, s, m - 1);
      Reachable(start, acts, s);
      assert s.log[..m][..m - 1] == s.log[..m - 1];
      var e := s.log[m - 1];
      if e.Committed? {
        CommitInside(View(start.fs), s, m - 1, m - 1);
        ParsedIsWellFormed(s.jobs[e.id].opcode, s.jobs[e.id].payload);
        LegalAt(View(start.fs), s.log, m - 1);
        LegalFits(Replay(View(start.fs), s.log[..m - 1]), e);
      }
    }
  }
}
