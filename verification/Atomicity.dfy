/**
  Every interleaving of the handlers is equivalent to an atomic store: the commits of a run, replayed one after
  the other on the initial files, are each a legal atomic request, and explain the storage directory.
*/
module Atomicity {
  import opened Bytes
  import opened Protocol
  import opened Payloads
  import opened LockRules
  import opened Server
  import opened LockSafety

  // ---------------------------------------------------------------- the atomic store

  type Store = map<Name, File>

  function LookUp(a: Store, n: Name): Option<File> {
    if n in a then Some(a[n]) else None
  }

  function ModeIn(a: Store, n: Name): nat {
    if n in a then a[n].mode else CREATE_MODE
  }

  function Apply(a: Store, e: Effect): Store {
    match e
    case Keep => a
    case Put(n, f) => a[n := f]
    case Remove(n) => a - {n}
  }

  /** The store after the commits of a log, in log order. */
  function Replay(a0: Store, log: seq<Event>): Store {
    if log == [] then a0
    else
      var last := |log| - 1;
      var a := Replay(a0, log[..last]);
      if log[last].Committed? then Apply(a, log[last].effect) else a
  }

  ghost predicate Success(req: Request, reply: Reply) {
    if req.Upload? then exists t: Times :: reply == UploadReply(t)
    else exists elapsed: u64 :: reply == OkReply(elapsed)
  }

  /** The sequential specification: what one request may answer, and do, on a store nobody else touches. */
  ghost predicate Legal(a: Store, req: Request, reply: Reply, e: Effect) {
    match req
    case Upload(n, data) =>
      || (Success(req, reply) && e == Put(n, File(data, ModeIn(a, n))))
      || (reply == OpenFailed() && e == Keep)
      || (reply == LockFailed() && e == Put(n, File([], ModeIn(a, n))))
      || (reply == WriteFailed() &&
          exists k: nat :: (k < |data| || k == 0) && e == Put(n, File(data[..k], ModeIn(a, n))))
    case Download(n) =>
      && e == Keep
      && (|| (n in a && exists elapsed: u64 :: reply == FileReply(elapsed, a[n].data))
          || reply == NotFound()
          || (n in a && a[n].data != [] && reply == MapFailed()))
    case Delete(n) =>
      || (Success(req, reply) && n in a && e == Remove(n))
      || (reply == NotFound() && e == Keep)
    case Chmod(n, mode) =>
      || (Success(req, reply) && n in a && e == Put(n, a[n].(mode := mode % 0x1000)))
      || (reply == NotFound() && e == Keep)
    case List => e == Keep && IsListReply(reply)
    case Reject(code, msg) => e == Keep && reply == ErrReply(code, msg)
  }

  ghost predicate AllLegal(a0: Store, log: seq<Event>) {
    if log == [] then true
    else
      var last := |log| - 1;
      && AllLegal(a0, log[..last])
      && (log[last].Committed? ==>
            Legal(Replay(a0, log[..last]), log[last].req, log[last].reply, log[last].effect))
  }

  /** Appending to a log. */
  lemma Extend(a0: Store, log: seq<Event>, e: Event)
    ensures Replay(a0, log + [e]) ==
            if e.Committed? then Apply(Replay(a0, log), e.effect) else Replay(a0, log)
    ensures AllLegal(a0, log + [e]) ==
            (AllLegal(a0, log) && (e.Committed? ==> Legal(Replay(a0, log), e.req, e.reply, e.effect)))
  {
    assert (log + [e])[..|log|] == log;
  }

  /** The store right after a commit. */
  lemma ReplayOne(a0: Store, log: seq<Event>, k: nat)
    requires k < |log| && log[k].Committed?
    ensures Replay(a0, log[..k + 1]) == Apply(Replay(a0, log[..k]), log[k].effect)
  {
    assert log[..k + 1][..k] == log[..k];
  }

  lemma Extend2(a0: Store, log: seq<Event>, e: Event, e': Event)
    requires !e'.Committed?
    ensures Replay(a0, log + [e, e']) ==
            if e.Committed? then Apply(Replay(a0, log), e.effect) else Replay(a0, log)
    ensures AllLegal(a0, log + [e, e']) ==
            (AllLegal(a0, log) && (e.Committed? ==> Legal(Replay(a0, log), e.req, e.reply, e.effect)))
  {
    assert log + [e, e'] == (log + [e]) + [e'];
    Extend(a0, log, e);
    Extend(a0, log + [e], e');
  }

  // ---------------------------------------------------------------- the simulation invariant

  /** The files a directory shows. */
  function View(fs: Fs): Store {
    map n | n in fs.dir && fs.dir[n] in fs.inodes :: fs.inodes[fs.dir[n]]
  }

  /** A settled outcome is legal whatever the clocks say. */
  ghost predicate Fixed(a: Store, req: Request, reply: Reply, e: Effect) {
    forall t: Times :: Legal(a, req, Timed(req, reply, t), e)
  }

  function NameOf(req: Request): Name
    requires HoldOf(req).Some?
  {
    HoldOf(req).value.name
  }

  /** The name's inode is the one the handler opened. */
  predicate Owns(fs: Fs, n: Name, ino: Ino) {
    n in fs.dir && fs.dir[n] == ino
  }

  /** What a handler at `stage` may rely on: how the directory differs from the atomic store at its own name. */
  ghost predicate StageOk(a: Store, fs: Fs, req: Request, stage: Stage) {
    && (!stage.Ready? && !stage.Replying? ==> HoldOf(req).Some?)
    && match stage
       case Ready => true
       case Asleep => true
       case Woken => true
       case Locked => LookUp(a, NameOf(req)) == FileAt(fs, NameOf(req))
       case Opened(ino) => Emptied(a, fs, req, ino)
       case Guarded(ino) => Emptied(a, fs, req, ino)
       case Reading(ino) => Stable(a, fs, req, ino)
       case Sized(ino, size) => Stable(a, fs, req, ino) && size == |Contents(fs, ino).data|
       case Sending(ino, size, _, off) =>
         Stable(a, fs, req, ino) && size == |Contents(fs, ino).data| && off <= 24 + size
       case Settled(reply, e) =>
         && Fixed(a, req, reply, e)
         && (e.Keep? || e.name == NameOf(req))
         && (req.Download? ==> e == Keep && reply.opcode == RESP_ERR)
         && LookUp(Apply(a, e), NameOf(req)) == FileAt(fs, NameOf(req))
       case Faulted => false
       case Replying(reply, off) => off <= |Frame(reply)|
  }

  predicate Emptied(a: Store, fs: Fs, req: Request, ino: Ino) {
    req.Upload? && Owns(fs, req.name, ino) && FileAt(fs, req.name) == Some(File([], ModeIn(a, req.name)))
  }

  predicate Stable(a: Store, fs: Fs, req: Request, ino: Ino) {
    req.Download? && Owns(fs, req.name, ino) && LookUp(a, req.name) == FileAt(fs, req.name)
  }

  predicate Unwritten(ws: seq<Worker>, n: Name) {
    forall i :: 0 <= i < |ws| ==> Held(ws[i]) != Some(Hold(n, Write))
  }

  ghost predicate WorkerOk(a: Store, fs: Fs, w: Worker) {
    w.Handling? ==> WellFormed(w.req) && StageOk(a, fs, w.req, w.stage)
  }

  ghost predicate StoreInv(a: Store, ws: seq<Worker>, fs: Fs) {
    && GoodFs(fs)
    && (forall i :: 0 <= i < |ws| ==> WorkerOk(a, fs, ws[i]))
    && (forall n :: Unwritten(ws, n) ==> LookUp(a, n) == FileAt(fs, n))
  }

  // ---------------------------------------------------------------- frames

  /** Nothing but `n` changed, in the directory and in the atomic store. */
  predicate SameAt(fs: Fs, fs': Fs, m: Name) {
    && (m in fs.dir <==> m in fs'.dir)
    && (m in fs.dir ==> fs.dir[m] == fs'.dir[m] && Contents(fs, fs.dir[m]) == Contents(fs', fs.dir[m]))
    && FileAt(fs, m) == FileAt(fs', m)
  }

  ghost predicate OnlyAt(a: Store, a': Store, fs: Fs, fs': Fs, n: Name) {
    forall m :: m != n ==> SameAt(fs, fs', m) && LookUp(a, m) == LookUp(a', m)
  }

  lemma LegalIsLocal(a: Store, a': Store, req: Request, reply: Reply, e: Effect)
    requires HoldOf(req).Some? && LookUp(a, NameOf(req)) == LookUp(a', NameOf(req))
    requires Legal(a, req, reply, e)
    ensures Legal(a', req, reply, e)
  {
    assert ModeIn(a, NameOf(req)) == ModeIn(a', NameOf(req));
  }

  /** A handler's assumptions concern its own name only. */
  lemma StageOkFrame(a: Store, a': Store, fs: Fs, fs': Fs, req: Request, stage: Stage)
    requires StageOk(a, fs, req, stage)
    requires InSection(stage) ==>
               SameAt(fs, fs', NameOf(req)) && LookUp(a, NameOf(req)) == LookUp(a', NameOf(req))
    ensures StageOk(a', fs', req, stage)
  {
    if stage.Settled? {
      forall t: Times ensures Legal(a', req, Timed(req, stage.reply, t), stage.effect) {
        LegalIsLocal(a, a', req, Timed(req, stage.reply, t), stage.effect);
      }
    }
  }

  lemma WriterAlone(ws: seq<Worker>, w: nat, i: nat, n: Name)
    requires Exclusive(ws) && w < |ws| && i < |ws| && i != w && Held(ws[w]) == Some(Hold(n, Write))
    ensures Held(ws[i]).Some? ==> Held(ws[i]).value.name != n
  {
    var clash := SameName(Held(ws[w]), Held(ws[i]));
  }

  /** A step of `w` on its own name, with the name write-locked or unchanged, keeps everyone else's assumptions. */
  lemma OthersKeep(a: Store, a': Store, ws: seq<Worker>, locks: map<Name, Entry>, fs: Fs, fs': Fs, w: nat, n: Name)
    requires LockInv(ws, locks) && StoreInv(a, ws, fs) && w < |ws|
    requires Held(ws[w]) == Some(Hold(n, Write)) && OnlyAt(a, a', fs, fs', n)
    ensures forall i :: 0 <= i < |ws| && i != w ==> WorkerOk(a', fs', ws[i])
  {
    forall i | 0 <= i < |ws| && i != w ensures WorkerOk(a', fs', ws[i]) {
      assert WorkerOk(a, fs, ws[i]);
      if ws[i].Handling? {
        WriterAlone(ws, w, i, n);
        StageOkFrame(a, a', fs, fs', ws[i].req, ws[i].stage);
      }
    }
  }

  // ---------------------------------------------------------------- steps

  /** A worker moves on without touching storage, locks or the atomic store. */
  lemma MoveOn(a: Store, ws: seq<Worker>, fs: Fs, w: nat, x: Worker)
    requires StoreInv(a, ws, fs) && w < |ws| && WorkerOk(a, fs, x)
    requires Held(x) == Held(ws[w])
    ensures StoreInv(a, ws[w := x], fs)
  {
    forall n | Unwritten(ws[w := x], n) ensures LookUp(a, n) == FileAt(fs, n) {
      forall i | 0 <= i < |ws| ensures Held(ws[i]) != Some(Hold(n, Write)) {
        assert Held(ws[w := x][i]) == Held(ws[i]);
      }
      assert Unwritten(ws, n);
    }
  }

  /** Workers are woken. */
  lemma Wakeups(a: Store, ws: seq<Worker>, ws': seq<Worker>, fs: Fs)
    requires StoreInv(a, ws, fs) && |ws| == |ws'|
    requires forall i :: 0 <= i < |ws| ==>
               || ws'[i] == ws[i]
               || (ws[i] == PoolAsleep && ws'[i] == PoolWoken)
               || (ws[i].Handling? && ws[i].stage.Asleep? && ws'[i] == ws[i].(stage := Woken))
    ensures StoreInv(a, ws', fs)
  {
    assert forall i :: 0 <= i < |ws| ==> Held(ws[i]) == Held(ws'[i]);
    forall i | 0 <= i < |ws| ensures WorkerOk(a, fs, ws'[i]) {
      assert WorkerOk(a, fs, ws[i]);
    }
    forall n | Unwritten(ws', n) ensures LookUp(a, n) == FileAt(fs, n) {
      forall i | 0 <= i < |ws| ensures Held(ws[i]) != Some(Hold(n, Write)) {
        assert Held(ws'[i]) == Held(ws[i]);
      }
      assert Unwritten(ws, n);
    }
  }

  /** A granted lock finds the name exactly as the atomic store has it. */
  lemma GrantIsClean(a: Store, ws: seq<Worker>, locks: map<Name, Entry>, fs: Fs, h: Hold)
    requires LockInv(ws, locks) && StoreInv(a, ws, fs) && !Conflict(EntryAt(locks, h.name), h.kind)
    ensures LookUp(a, h.name) == FileAt(fs, h.name)
  {
    assert Accounted(ws, locks, h.name);
    forall i | 0 <= i < |ws| ensures Held(ws[i]) != Some(Hold(h.name, Write)) {
      if Held(ws[i]) == Some(Hold(h.name, Write)) {
        NoHolders(ws, locks, Hold(h.name, Write), i);
        assert false;
      }
    }
    assert Unwritten(ws, h.name);
  }

  ghost predicate FsOnlyAt(fs: Fs, fs': Fs, n: Name) {
    forall m :: m != n ==> SameAt(fs, fs', m)
  }

  /** Changing the inode of one name shows under no other name: there are no links. */
  lemma ChangeInode(fs: Fs, n: Name, ino: Ino, f: File)
    requires GoodFs(fs) && Owns(fs, n, ino) && |f.data| <= MAX_FILE
    ensures var fs' := fs.(inodes := fs.inodes[ino := f]);
            GoodFs(fs') && FsOnlyAt(fs, fs', n) && FileAt(fs', n) == Some(f) && Owns(fs', n, ino)
  {
  }

  lemma CreateInode(fs: Fs, n: Name, ino: Ino, f: File)
    requires GoodFs(fs) && n !in fs.dir && ino !in fs.inodes && |f.data| <= MAX_FILE
    ensures var fs' := Fs(fs.dir[n := ino], fs.inodes[ino := f]);
            GoodFs(fs') && FsOnlyAt(fs, fs', n) && FileAt(fs', n) == Some(f) && Owns(fs', n, ino)
  {
  }

  lemma UnlinkIsLocal(fs: Fs, n: Name)
    requires GoodFs(fs)
    ensures var fs' := Unlink(fs, n); GoodFs(fs') && FsOnlyAt(fs, fs', n) && FileAt(fs', n) == None
  {
  }

  /** An error reply is not touched by the clock. */
  lemma FixedError(a: Store, req: Request, reply: Reply, e: Effect)
    requires reply.opcode != RESP_OK && Legal(a, req, reply, e)
    ensures Fixed(a, req, reply, e)
  {
  }

  lemma OpenTruncIsLocal(a: Store, fs: Fs, req: Request, ino: Ino)
    requires GoodFs(fs) && StageOk(a, fs, req, Locked) && CallEnabled(fs, req, Locked, OpenTrunc(true, ino))
    ensures var fs' := Truncate(fs, req.name, ino);
            GoodFs(fs') && Emptied(a, fs', req, ino) && FsOnlyAt(fs, fs', req.name)
  {
    if req.name in fs.dir {
      ChangeInode(fs, req.name, ino, Contents(fs, ino).(data := []));
    } else {
      CreateInode(fs, req.name, ino, File([], CREATE_MODE));
    }
  }

  lemma WriteIsPrefix(a: Store, fs: Fs, req: Request, ino: Ino, written: int)
    requires GoodFs(fs) && WellFormed(req) && Emptied(a, fs, req, ino)
    requires CallEnabled(fs, req, Guarded(ino), WriteBody(written))
    ensures var (fs', stage') := DoCall(fs, req, Guarded(ino), WriteBody(written));
            GoodFs(fs') && StageOk(a, fs', req, stage') && FsOnlyAt(fs, fs', req.name)
  {
    var (fs', stage') := DoCall(fs, req, Guarded(ino), WriteBody(written));
    var k: nat := if written < 0 then 0 else written;
    var f := File(req.data[..k], ModeIn(a, req.name));
    if written >= 0 {
      ChangeInode(fs, req.name, ino, f);
      assert req.data[..k] + [] == req.data[..k];
      assert fs' == fs.(inodes := fs.inodes[ino := f]);
    }
    assert FileAt(fs', req.name) == Some(f);
    var e := Put(req.name, f);
    if written == |req.data| {
      assert req.data[..k] == req.data;
      forall t: Times ensures Legal(a, req, Timed(req, OkReply(0), t), e) {
        assert Timed(req, OkReply(0), t) == UploadReply(t);
      }
    } else {
      FixedError(a, req, WriteFailed(), e);
    }
  }

  lemma UnlinkOk(a: Store, fs: Fs, req: Request)
    requires GoodFs(fs) && StageOk(a, fs, req, Locked) && CallEnabled(fs, req, Locked, UnlinkFile(true))
    ensures var fs' := Unlink(fs, req.name);
            GoodFs(fs') && FsOnlyAt(fs, fs', req.name) && StageOk(a, fs', req, Settled(OkReply(0), Remove(req.name)))
  {
    UnlinkIsLocal(fs, req.name);
    forall t: Times ensures Legal(a, req, Timed(req, OkReply(0), t), Remove(req.name)) {
      assert Timed(req, OkReply(0), t) == OkReply(t.write);
    }
  }

  lemma ChmodOk(a: Store, fs: Fs, req: Request)
    requires GoodFs(fs) && StageOk(a, fs, req, Locked) && CallEnabled(fs, req, Locked, ChmodFile(true))
    ensures var (fs', stage') := DoCall(fs, req, Locked, ChmodFile(true));
            GoodFs(fs') && FsOnlyAt(fs, fs', req.name) && StageOk(a, fs', req, stage')
  {
    var ino := fs.dir[req.name];
    var f := Contents(fs, ino).(mode := req.mode % 0x1000);
    ChangeInode(fs, req.name, ino, f);
    forall t: Times ensures Legal(a, req, Timed(req, OkReply(0), t), Put(req.name, f)) {
      assert Timed(req, OkReply(0), t) == OkReply(t.write);
    }
  }

  /** Every file system call of every handler: what it does at its name, and that it does nothing elsewhere. */
  lemma CallIsLocal(a: Store, fs: Fs, req: Request, stage: Stage, call: FileCall)
    requires GoodFs(fs) && WellFormed(req) && StageOk(a, fs, req, stage) && CallEnabled(fs, req, stage, call)
    ensures var (fs', stage') := DoCall(fs, req, stage, call);
            && GoodFs(fs') && StageOk(a, fs', req, stage') && FsOnlyAt(fs, fs', NameOf(req))
            && InSection(stage') && (req.Download? ==> fs' == fs)
  {
    var (fs', stage') := DoCall(fs, req, stage, call);
    if call.WriteBody? {
      WriteIsPrefix(a, fs, req, stage.ino, call.written);
    } else if stage'.Settled? && stage'.reply.opcode != RESP_OK {
      FixedError(a, req, stage'.reply, stage'.effect);
    } else if call.OpenTrunc? {
      OpenTruncIsLocal(a, fs, req, call.ino);
    } else if call.UnlinkFile? {
      UnlinkOk(a, fs, req);
    } else if call.ChmodFile? {
      ChmodOk(a, fs, req);
    }
  }

  /** The simulation relation between a server state and the atomic store that its log replays to. */
  ghost predicate Simulates(a0: Store, s: State) {
    && LockInv(s.workers, s.locks)
    && StoreInv(Replay(a0, s.log), s.workers, s.fs)
    && AllLegal(a0, s.log)
  }

  lemma CallStep(a: Store, s: State, w: nat, c: Choice)
    requires LockInv(s.workers, s.locks) && StoreInv(a, s.workers, s.fs)
    requires Enabled(s, Step(w, c)) && c.Call?
    ensures var t := DoStep(s, w, c); StoreInv(a, t.workers, t.fs)
  {
    var t := DoStep(s, w, c);
    var x := s.workers[w];
    var n := NameOf(x.req);
    assert WorkerOk(a, s.fs, x);
    CallIsLocal(a, s.fs, x.req, x.stage, c.call);
    assert Held(t.workers[w]) == Held(x) == HoldOf(x.req);
    if x.req.Download? {
      MoveOn(a, s.workers, s.fs, w, t.workers[w]);
    } else {
      OthersKeep(a, a, s.workers, s.locks, s.fs, t.fs, w, n);
      forall m | Unwritten(t.workers, m) ensures LookUp(a, m) == FileAt(t.fs, m) {
        assert Held(t.workers[w]) != Some(Hold(m, Write));
        forall i | 0 <= i < |s.workers| ensures Held(s.workers[i]) != Some(Hold(m, Write)) {
          assert Held(t.workers[i]) == Held(s.workers[i]);
        }
        assert Unwritten(s.workers, m);
        assert SameAt(s.fs, t.fs, m);
      }
    }
  }

  /** A holder leaves its critical section with the directory showing the atomic store again. */
  lemma LeaveSection(a: Store, a': Store, ws: seq<Worker>, locks: map<Name, Entry>, fs: Fs, w: nat, x: Worker, h: Hold)
    requires LockInv(ws, locks) && StoreInv(a, ws, fs) && w < |ws| && Held(ws[w]) == Some(h)
    requires Held(x) == None && WorkerOk(a', fs, x)
    requires OnlyAt(a, a', fs, fs, h.name) && LookUp(a', h.name) == FileAt(fs, h.name)
    requires h.kind == Read ==> a' == a
    ensures StoreInv(a', WakeLockers(ws)[w := x], fs)
  {
    var woken := WakeLockers(ws);
    var ws' := woken[w := x];
    Wakeups(a, ws, woken, fs);
    SameHolders(ws, woken, locks);
    assert Held(woken[w]) == Some(h);
    if h.kind == Write {
      OthersKeep(a, a', woken, locks, fs, fs, w, h.name);
    }
    forall i | 0 <= i < |ws'| ensures WorkerOk(a', fs, ws'[i]) {
      if i != w {
        assert ws'[i] == woken[i];
      }
    }
    forall m | Unwritten(ws', m) ensures LookUp(a', m) == FileAt(fs, m) {
      if m != h.name {
        forall i | 0 <= i < |ws| ensures Held(woken[i]) != Some(Hold(m, Write)) {
          assert i != w ==> Held(ws'[i]) == Held(woken[i]);
        }
        assert Unwritten(woken, m);
      }
    }
  }

  /** The store once a critical section is left: the effect is in, and only at the section's own name. */
  function Settle(a: Store, stage: Stage): Store {
    if stage.Settled? then Apply(a, stage.effect) else a
  }

  lemma EffectShows(a: Store, fs: Fs, req: Request, stage: Stage, times: Times)
    requires WellFormed(req) && HoldOf(req).Some? && StageOk(a, fs, req, stage)
    requires stage.Settled? || (stage.Sending? && req.Download?)
    ensures var h, a' := HoldOf(req).value, Settle(a, stage);
            && OnlyAt(a, a', fs, fs, h.name) && LookUp(a', h.name) == FileAt(fs, h.name)
            && (h.kind == Read ==> a' == a)
            && (stage.Settled? ==> Legal(a, req, Timed(req, stage.reply, times), stage.effect))
  {
  }

  /** Leaving the critical section is where an upload, delete or chmod takes effect in the atomic store. */
  lemma ReleaseStep(a: Store, s: State, w: nat, c: Choice)
    requires LockInv(s.workers, s.locks) && StoreInv(a, s.workers, s.fs)
    requires Enabled(s, Step(w, c)) && c.Release?
    ensures var t := DoStep(s, w, c);
            var stage := s.workers[w].stage;
            && StoreInv(Settle(a, stage), t.workers, t.fs)
            && (stage.Settled? ==>
                  Legal(a, s.workers[w].req, Timed(s.workers[w].req, stage.reply, c.times), stage.effect))
  {
    var x := s.workers[w];
    assert WorkerOk(a, s.fs, x);
    EffectShows(a, s.fs, x.req, x.stage, c.times);
    LeaveSection(a, Settle(a, x.stage), s.workers, s.locks, s.fs, w, AfterRelease(x.id, x.req, x.stage, c.times).0,
                 HoldOf(x.req).value);
  }

  lemma AcquireStep(a: Store, s: State, w: nat, c: Choice)
    requires LockInv(s.workers, s.locks) && StoreInv(a, s.workers, s.fs)
    requires Enabled(s, Step(w, c)) && c.Acquire?
    ensures var t := DoStep(s, w, c); StoreInv(a, t.workers, t.fs)
  {
    var x := s.workers[w];
    var h := HoldOf(x.req).value;
    var y := DoStep(s, w, c).workers[w];
    assert WorkerOk(a, s.fs, x);
    if !Conflict(EntryAt(s.locks, h.name), h.kind) {
      GrantIsClean(a, s.workers, s.locks, s.fs, h);
    }
    assert WorkerOk(a, s.fs, y);
    forall n | Unwritten(s.workers[w := y], n) ensures LookUp(a, n) == FileAt(s.fs, n) {
      forall i | 0 <= i < |s.workers| ensures Held(s.workers[i]) != Some(Hold(n, Write)) {
        assert i != w ==> Held(s.workers[w := y][i]) == Held(s.workers[i]);
      }
      assert Unwritten(s.workers, n);
    }
  }

  /** A handler step that changes no file and no lock. */
  ghost predicate Quietly(a: Store, s: State, t: State) {
    && StoreInv(a, t.workers, t.fs) && s.log <= t.log
    && (forall e :: e in t.log[|s.log|..] && e.Committed? ==> e.effect == Keep && Legal(a, e.req, e.reply, Keep))
  }

  /** The outcome of a download is fixed. */
  lemma MapStep(a: Store, s: State, w: nat, c: Choice)
    requires StoreInv(a, s.workers, s.fs) && Enabled(s, Step(w, c)) && s.workers[w].Handling? && c.MapFile?
    ensures Quietly(a, s, DoStep(s, w, c))
  {
    var t := DoStep(s, w, c);
    var x := s.workers[w];
    assert WorkerOk(a, s.fs, x);
    assert t.log[..|s.log|] == s.log;
    assert Legal(a, x.req, FileReply(c.elapsed, Contents(s.fs, x.stage.ino).data), Keep);
    assert WorkerOk(a, s.fs, t.workers[w]);
    MoveOn(a, s.workers, s.fs, w, t.workers[w]);
  }

  /** Bytes of a download go out. */
  lemma SendStep(a: Store, s: State, w: nat, c: Choice)
    requires StoreInv(a, s.workers, s.fs) && Enabled(s, Step(w, c)) && s.workers[w].Handling? && c.SendFile?
    ensures Quietly(a, s, DoStep(s, w, c))
  {
    var t := DoStep(s, w, c);
    assert WorkerOk(a, s.fs, s.workers[w]);
    assert WorkerOk(a, s.fs, t.workers[w]);
    MoveOn(a, s.workers, s.fs, w, t.workers[w]);
  }

  /** A request that takes no lock is answered. */
  lemma AnswerStep(a: Store, s: State, w: nat, c: Choice)
    requires StoreInv(a, s.workers, s.fs) && Enabled(s, Step(w, c)) && s.workers[w].Handling? && c.Answer?
    ensures Quietly(a, s, DoStep(s, w, c))
  {
    var t := DoStep(s, w, c);
    assert WorkerOk(a, s.fs, s.workers[w]);
    assert t.log[..|s.log|] == s.log;
    assert WorkerOk(a, s.fs, t.workers[w]);
    MoveOn(a, s.workers, s.fs, w, t.workers[w]);
  }

  /** A reply goes out, or is done with. */
  lemma TalkStep(a: Store, s: State, w: nat, c: Choice)
    requires StoreInv(a, s.workers, s.fs) && Enabled(s, Step(w, c)) && s.workers[w].Handling?
    requires c.SendReply? || c.Finish?
    ensures Quietly(a, s, DoStep(s, w, c))
  {
    var t := DoStep(s, w, c);
    assert WorkerOk(a, s.fs, s.workers[w]);
    assert WorkerOk(a, s.fs, t.workers[w]);
    MoveOn(a, s.workers, s.fs, w, t.workers[w]);
  }

  lemma PoolStep(a: Store, s: State, w: nat, c: Choice)
    requires StoreInv(a, s.workers, s.fs) && Enabled(s, Step(w, c)) && !s.workers[w].Handling?
    ensures var t := DoStep(s, w, c);
            && StoreInv(a, t.workers, t.fs)
            && (forall e :: e in t.log[|s.log|..] ==> !e.Committed?)
  {
    var t := DoStep(s, w, c);
    assert t.log[..|s.log|] == s.log;
    if t.workers[w].Handling? {
      var id := t.workers[w].id;
      var job := if id < |s.jobs| then s.jobs[id] else Job(0, []);
      ParsedIsWellFormed(job.opcode, job.payload);
    }
    MoveOn(a, s.workers, s.fs, w, t.workers[w]);
  }

  /** A step that logs no commit leaves the atomic store alone; one that logs a legal commit applies it. */
  lemma LogStep(a0: Store, log: seq<Event>, es: seq<Event>)
    requires AllLegal(a0, log) && |es| <= 2
    requires forall i :: 0 < i < |es| ==> !es[i].Committed?
    requires es != [] && es[0].Committed? ==> Legal(Replay(a0, log), es[0].req, es[0].reply, es[0].effect)
    ensures AllLegal(a0, log + es)
    ensures Replay(a0, log + es) ==
            if es != [] && es[0].Committed? then Apply(Replay(a0, log), es[0].effect) else Replay(a0, log)
  {
    if |es| == 0 {
      assert log + es == log;
    } else if |es| == 1 {
      assert es == [es[0]];
      Extend(a0, log, es[0]);
    } else {
      assert es == [es[0], es[1]];
      Extend2(a0, log, es[0], es[1]);
    }
  }

  /** What one step of a handler adds to the log. */
  function Added(s: State, t: State): seq<Event> {
    if s.log <= t.log then t.log[|s.log|..] else []
  }

  /** Nothing is committed outside a release, a mapping or an answer. */
  lemma AddedEvents(s: State, w: nat, c: Choice)
    requires Enabled(s, Step(w, c)) && s.workers[w].Handling?
    ensures var t, x := DoStep(s, w, c), s.workers[w]; var es := Added(s, t);
            && t.log == s.log + es && |es| <= 2 && (forall i :: 0 < i < |es| ==> !es[i].Committed?)
            && (c.Call? || c.Acquire? ==> es == [] || !es[0].Committed?)
            && (c.Release? ==> es != [])
            && (c.Release? && x.stage.Settled? ==>
                  es[0] == Committed(x.id, x.req, Timed(x.req, x.stage.reply, c.times), x.stage.effect))
            && (c.Release? && !x.stage.Settled? ==> !es[0].Committed?)
  {
  }

  lemma HandlerSimulation(a0: Store, s: State, w: nat, c: Choice)
    requires Simulates(a0, s) && Enabled(s, Step(w, c)) && s.workers[w].Handling?
    ensures var t := DoStep(s, w, c); StoreInv(Replay(a0, t.log), t.workers, t.fs) && AllLegal(a0, t.log)
  {
    var a := Replay(a0, s.log);
    AddedEvents(s, w, c);
    if c.Call? {
      CallStep(a, s, w, c);
    } else if c.Release? {
      ReleaseStep(a, s, w, c);
    } else if c.Acquire? {
      AcquireStep(a, s, w, c);
    } else {
      QuietStep(a, s, w, c);
    }
    LogStep(a0, s.log, Added(s, DoStep(s, w, c)));
  }

  lemma QuietStep(a: Store, s: State, w: nat, c: Choice)
    requires StoreInv(a, s.workers, s.fs) && Enabled(s, Step(w, c)) && s.workers[w].Handling?
    requires !c.Call? && !c.Release? && !c.Acquire?
    ensures Quietly(a, s, DoStep(s, w, c))
  {
    if c.MapFile? {
      MapStep(a, s, w, c);
    } else if c.SendFile? {
      SendStep(a, s, w, c);
    } else if c.Answer? {
      AnswerStep(a, s, w, c);
    } else {
      TalkStep(a, s, w, c);
    }
  }

  /** The steps of the pool and of the kernel, and new jobs: no commit. */
  lemma PoolSimulation(a0: Store, s: State, act: Action)
    requires Simulates(a0, s) && Enabled(s, act) && !act.Step?
    ensures var t := Do(s, act); StoreInv(Replay(a0, t.log), t.workers, t.fs) && AllLegal(a0, t.log)
  {
    Wakeups(Replay(a0, s.log), s.workers, Do(s, act).workers, s.fs);
    if act.Submit? {
      Extend(a0, s.log, Submitted(|s.jobs|));
    }
  }

  lemma WorkerSimulation(a0: Store, s: State, w: nat, c: Choice)
    requires Simulates(a0, s) && Enabled(s, Step(w, c)) && !s.workers[w].Handling?
    ensures var t := DoStep(s, w, c); StoreInv(Replay(a0, t.log), t.workers, t.fs) && AllLegal(a0, t.log)
  {
    var t := DoStep(s, w, c);
    PoolStep(Replay(a0, s.log), s, w, c);
    if t.log != s.log {
      assert t.log == s.log + [t.log[|s.log|]];
      Extend(a0, s.log, t.log[|s.log|]);
    }
  }

  /** One step of the server is at most one legal atomic request. */
  lemma SimulationStep(a0: Store, s: State, act: Action)
    requires Simulates(a0, s) && Enabled(s, act)
    ensures Simulates(a0, Do(s, act))
  {
    LockInvStep(s, act);
    if !act.Step? {
      PoolSimulation(a0, s, act);
    } else if s.workers[act.w].Handling? {
      HandlerSimulation(a0, s, act.w, act.choice);
    } else {
      WorkerSimulation(a0, s, act.w, act.choice);
    }
  }

  lemma InitSimulates(s: State)
    requires Init(s)
    ensures Simulates(View(s.fs), s)
  {
    assert forall n :: LookUp(View(s.fs), n) == FileAt(s.fs, n);
    forall n ensures Accounted(s.workers, s.locks, n) {
      assert Holders(s.workers, Hold(n, Write)) == {} && Holders(s.workers, Hold(n, Read)) == {};
    }
  }

  lemma {:induction false} RunSimulates(a0: Store, s: State, acts: seq<Action>, t: State)
    requires Simulates(a0, s) && Runs(s, acts, t)
    ensures Simulates(a0, t)
    decreases |acts|
  {
    if acts != [] {
      SimulationStep(a0, s, acts[0]);
      RunSimulates(a0, Do(s, acts[0]), acts[1..], t);
    }
  }
}
