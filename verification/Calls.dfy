/**
  What each file system call of a handler does, for every directory and every answer of the kernel: what shows under
  the name afterwards, what shows elsewhere, and what the client will be told.
*/
module Calls {
  import opened Bytes
  import opened Protocol
  import opened Payloads
  import opened LockRules
  import opened Server

  /** Nothing shows under another name. */
  ghost predicate SameElsewhere(fs: Fs, fs': Fs, n: Name) {
    forall m :: m != n ==> FileAt(fs', m) == FileAt(fs, m)
  }

  /** The plain success of a request: no body, and the elapsed time of its call. */
  ghost predicate TellsOk(req: Request, reply: Reply) {
    forall t: Times :: Timed(req, reply, t) == Reply(0x80, t.write, [])
  }

  /** An error is told as it is, whatever the clocks say. */
  ghost predicate TellsError(req: Request, reply: Reply, code: u16, msg: string) {
    reply == ErrReply(code, msg) && forall t: Times :: Timed(req, reply, t) == reply
  }

  // ---------------------------------------------------------------- delete and chmod

  /** `unlink`: if it succeeds the name is gone and the client is told OK, otherwise all is as before and it is 404. */
  lemma UnlinkOutcome(fs: Fs, name: Name, ok: bool)
    requires GoodFs(fs) && (ok ==> FileAt(fs, name).Some?)
    ensures CallEnabled(fs, Delete(name), Locked, UnlinkFile(ok))
    ensures var (fs', stage) := DoCall(fs, Delete(name), Locked, UnlinkFile(ok));
            && GoodFs(fs') && SameElsewhere(fs, fs', name) && stage.Settled?
            && FileAt(fs', name) == (if ok then None else FileAt(fs, name))
            && stage.effect == (if ok then Remove(name) else Keep)
            && if ok then TellsOk(Delete(name), stage.reply) else TellsError(Delete(name), stage.reply, 404, "file not found")
  {
  }

  /** `chmod`: if it succeeds the file has its old bytes and the twelve mode bits asked for, and the client is told OK. */
  lemma ChmodOutcome(fs: Fs, name: Name, mode: u32, ok: bool)
    requires GoodFs(fs) && (ok ==> FileAt(fs, name).Some?)
    ensures CallEnabled(fs, Chmod(name, mode), Locked, ChmodFile(ok))
    ensures var (fs', stage) := DoCall(fs, Chmod(name, mode), Locked, ChmodFile(ok));
            && GoodFs(fs') && SameElsewhere(fs, fs', name) && stage.Settled?
            && FileAt(fs', name) ==
               (if ok then Some(File(FileAt(fs, name).value.data, mode % 0x1000)) else FileAt(fs, name))
            && (ok ==> stage.effect == Put(name, FileAt(fs', name).value)) && (!ok ==> stage.effect == Keep)
            && if ok then TellsOk(Chmod(name, mode), stage.reply)
               else TellsError(Chmod(name, mode), stage.reply, 404, "file not found")
  {
  }

  // ---------------------------------------------------------------- upload

  /** `open` for an upload: the file is there and empty, with the mode it had or 0644; or nothing happened. */
  lemma OpenOutcome(fs: Fs, name: Name, data: seq<byte>, ok: bool, ino: Ino)
    requires GoodFs(fs) && (ok ==> if name in fs.dir then ino == fs.dir[name] else ino !in fs.inodes)
    ensures CallEnabled(fs, Upload(name, data), Locked, OpenTrunc(ok, ino))
    ensures var (fs', stage) := DoCall(fs, Upload(name, data), Locked, OpenTrunc(ok, ino));
            && GoodFs(fs') && SameElsewhere(fs, fs', name)
            && if ok
               then
                 && stage == Opened(ino) && name in fs'.dir && fs'.dir[name] == ino
                 && FileAt(fs', name) ==
                    Some(File([], if FileAt(fs, name).Some? then FileAt(fs, name).value.mode else 0x1A4))
               else
                 && fs' == fs && stage.Settled? && stage.effect == Keep
                 && TellsError(Upload(name, data), stage.reply, 500, "failed to open file")
  {
  }

  /** `fcntl` on the emptied file: the upload goes on, or ends with the file as it is now. */
  lemma FcntlOutcome(fs: Fs, name: Name, data: seq<byte>, ok: bool, ino: Ino)
    requires GoodFs(fs) && name in fs.dir && fs.dir[name] == ino
    ensures CallEnabled(fs, Upload(name, data), Opened(ino), FcntlLock(ok))
    ensures var (fs', stage) := DoCall(fs, Upload(name, data), Opened(ino), FcntlLock(ok));
            && fs' == fs
            && if ok then stage == Guarded(ino)
               else
                 && stage.Settled? && stage.effect == Put(name, FileAt(fs, name).value)
                 && TellsError(Upload(name, data), stage.reply, 500, "failed to lock file")
  {
  }

  /** The one `write` of an upload, of any count or failed: the file holds just that much, and only all of it is success. */
  lemma WriteOutcome(fs: Fs, name: Name, data: seq<byte>, written: int, ino: Ino, mode: nat)
    requires GoodFs(fs) && name in fs.dir && fs.dir[name] == ino && FileAt(fs, name) == Some(File([], mode))
    requires -1 <= written <= |data| <= MAX_FILE
    ensures CallEnabled(fs, Upload(name, data), Guarded(ino), WriteBody(written))
    ensures var (fs', stage) := DoCall(fs, Upload(name, data), Guarded(ino), WriteBody(written));
            && GoodFs(fs') && SameElsewhere(fs, fs', name) && stage.Settled?
            && FileAt(fs', name) == Some(File(if written < 0 then [] else data[..written], mode))
            && stage.effect == Put(name, FileAt(fs', name).value)
            && if written == |data| then forall t: Times :: Timed(Upload(name, data), stage.reply, t) == UploadReply(t)
               else TellsError(Upload(name, data), stage.reply, 500, "failed to write file body")
  {
    if written >= 0 {
      assert data[..written] + [] == data[..written];
    }
  }

  // ---------------------------------------------------------------- download

  /** The calls of a download change nothing: they lead on to the file of that name, or to their own error. */
  lemma OpenReadOutcome(fs: Fs, name: Name, ok: bool)
    requires GoodFs(fs) && (ok ==> FileAt(fs, name).Some?)
    ensures CallEnabled(fs, Download(name), Locked, OpenRead(ok))
    ensures var (fs', stage) := DoCall(fs, Download(name), Locked, OpenRead(ok));
            && fs' == fs
            && if ok then name in fs.dir && stage == Reading(fs.dir[name])
               else
                 && stage.Settled? && stage.effect == Keep
                 && TellsError(Download(name), stage.reply, 404, "file not found")
  {
  }

  lemma FstatOutcome(fs: Fs, name: Name, ok: bool)
    requires GoodFs(fs) && name in fs.dir
    ensures CallEnabled(fs, Download(name), Reading(fs.dir[name]), Fstat(ok))
    ensures var (fs', stage) := DoCall(fs, Download(name), Reading(fs.dir[name]), Fstat(ok));
            && fs' == fs
            && if ok then stage == Sized(fs.dir[name], |FileAt(fs, name).value.data|)
               else
                 && stage.Settled? && stage.effect == Keep
                 && TellsError(Download(name), stage.reply, 404, "file not found")
  {
  }

  /** `mmap` may fail, except on an empty file, which is not mapped. */
  lemma MmapOutcome(fs: Fs, name: Name, ino: Ino, size: nat)
    ensures CallEnabled(fs, Download(name), Sized(ino, size), MmapFails) <==> size > 0
    ensures size > 0 ==>
              var (fs', stage) := DoCall(fs, Download(name), Sized(ino, size), MmapFails);
              && fs' == fs && stage.Settled? && stage.effect == Keep
              && TellsError(Download(name), stage.reply, 500, "failed to map file")
  {
  }

  // ---------------------------------------------------------------- commits

  /** What is committed when a critical section is left: the reply it was settled on, with these clock readings. */
  lemma ReleaseOutcome(s: State, w: nat, times: Times)
    requires w < |s.workers| && s.workers[w].Handling? && s.workers[w].stage.Settled?
    requires HoldOf(s.workers[w].req).Some?
    ensures Enabled(s, Step(w, Release(times)))
    ensures var x, t := s.workers[w], DoStep(s, w, Release(times));
            var sent := Timed(x.req, x.stage.reply, times);
            && t.workers[w] == Handling(x.id, x.req, Replying(sent, 0)) && t.fs == s.fs && t.out == s.out
            && t.log == s.log + [Committed(x.id, x.req, sent, x.stage.effect), Released(x.id, HoldOf(x.req).value)]
  {
  }

  /** What is committed when a file is mapped: the file of that inode now, with this clock reading. */
  lemma MapOutcome(s: State, w: nat, elapsed: u64)
    requires w < |s.workers| && s.workers[w].Handling? && s.workers[w].req.Download? && s.workers[w].stage.Sized?
    ensures Enabled(s, Step(w, MapFile(elapsed)))
    ensures var x, t := s.workers[w], DoStep(s, w, MapFile(elapsed));
            var reply := Reply(0x82, elapsed, FileReply(0, Contents(s.fs, x.stage.ino).data).body);
            && t.workers[w] == Handling(x.id, x.req, Sending(x.stage.ino, x.stage.size, elapsed, 0))
            && t.fs == s.fs && t.out == s.out && t.log == s.log + [Committed(x.id, x.req, reply, Keep)]
  {
  }

  /** What is committed for a request that takes no lock. */
  lemma AnswerOutcome(s: State, w: nat, reply: Reply)
    requires w < |s.workers| && s.workers[w].Handling? && s.workers[w].stage.Ready?
    requires var req := s.workers[w].req;
             (req.List? && IsListReply(reply)) || (req.Reject? && reply == ErrReply(req.code, req.msg))
    ensures Enabled(s, Step(w, Answer(reply)))
    ensures var x, t := s.workers[w], DoStep(s, w, Answer(reply));
            && t.workers[w] == Handling(x.id, x.req, Replying(reply, 0)) && t.fs == s.fs && t.out == s.out
            && t.log == s.log + [Committed(x.id, x.req, reply, Keep)]
  {
  }
}
