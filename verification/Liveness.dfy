/**
  Nothing gets stuck: no sleeper waits for a free lock, no job waits beside a sleeping worker, and after shutdown
  every run drains the queue and ends with all workers gone.
*/
module Liveness {
  import opened Bytes
  import opened Protocol
  import opened Payloads
  import opened LockRules
  import opened Server
  import opened LockSafety
  import opened Atomicity
  import opened Traces

  // ---------------------------------------------------------------- deadlock freedom of the lock layer

  /** A step a handler can take where it is; the kernel's answer is one of those possible. */
  function HandlerMove(fs: Fs, req: Request, stage: Stage): Choice {
    match stage
    case Ready =>
      if HoldOf(req).Some? then Acquire
      else if req.Reject? then Answer(ErrReply(req.code, req.msg))
      else Answer(Reply(RESP_LIST_DATA, 0, []))
    case Woken => Acquire
    case Locked =>
      (match req
       case Upload(_, _) => Call(OpenTrunc(false, 0))
       case Download(_) => Call(OpenRead(false))
       case Delete(_) => Call(UnlinkFile(false))
       case _ => Call(ChmodFile(false)))
    case Opened(_) => Call(FcntlLock(true))
    case Guarded(_) => Call(WriteBody(if req.Upload? then |req.data| else 0))
    case Reading(_) => Call(Fstat(true))
    case Sized(_, _) => MapFile(0)
    case Sending(_, _, _, _) => Release(Times(0, 0, 0))
    case Settled(_, _) => Release(Times(0, 0, 0))
    case _ => Finish
  }

  function Move(s: State, w: nat): Choice
    requires w < |s.workers|
  {
    match s.workers[w]
    case Receiving(_, _) => Receive(1)
    case Handling(_, req, stage) => HandlerMove(s.fs, req, stage)
    case Closing(_) => CloseSocket
    case _ => Poll
  }

  /** A worker that is neither gone nor in a condition wait always has an enabled step. */
  predicate Waiting(w: Worker) {
    w.PoolAsleep? || w.Exited? || Awaited(w).Some?
  }

  lemma CanMove(a0: Store, s: State, w: nat)
    requires Inv(a0, s) && w < |s.workers| && !Waiting(s.workers[w])
    ensures Enabled(s, Step(w, Move(s, w)))
  {
    assert WorkerOk(Replay(a0, s.log), s.fs, s.workers[w]);
    assert WorkerJobOk(s, w);
  }

  /**
    Deadlock freedom, although one condition variable serves all names: whoever sleeps for a lock sleeps because
    some worker holds that very name, and that worker can take a step.
  */
  lemma HolderMoves(a0: Store, s: State, w: nat) returns (j: nat)
    requires Inv(a0, s) && w < |s.workers| && Awaited(s.workers[w]).Some?
    ensures j < |s.workers| && j != w && Held(s.workers[j]).Some?
    ensures Held(s.workers[j]).value.name == Awaited(s.workers[w]).value.name
    ensures Awaited(s.workers[w]).value.kind == Read ==> Held(s.workers[j]).value.kind == Write
    ensures Enabled(s, Step(j, Move(s, j)))
  {
    var h := Awaited(s.workers[w]).value;
    assert Accounted(s.workers, s.locks, h.name);
    var e := EntryAt(s.locks, h.name);
    assert Conflict(e, h.kind);
    if e.writers > 0 {
      assert Holders(s.workers, Hold(h.name, Write)) != {};
      j :| j in Holders(s.workers, Hold(h.name, Write));
    } else {
      assert Holders(s.workers, Hold(h.name, Read)) != {};
      j :| j in Holders(s.workers, Hold(h.name, Read));
    }
    CanMove(a0, s, j);
  }

  // ---------------------------------------------------------------- the pool

  function PoolWokenSet(ws: seq<Worker>): set<nat> {
    set i | 0 <= i < |ws| && ws[i].PoolWoken?
  }

  predicate SomeoneSleeps(ws: seq<Worker>) {
    exists i :: 0 <= i < |ws| && ws[i].PoolAsleep?
  }

  /** The ids of the jobs taken from the queue, in log order. */
  function Takes(log: seq<Event>): seq<nat> {
    if log == [] then []
    else
      var last := |log| - 1;
      Takes(log[..last]) + if log[last].Taken? then [log[last].id] else []
  }

  /** No lost wakeup; nobody sleeps after shutdown; nobody leaves while there is work. */
  predicate WakeInv(ws: seq<Worker>, waiting: nat, running: bool) {
    && (SomeoneSleeps(ws) ==> waiting <= |PoolWokenSet(ws)|)
    && (!running ==> !SomeoneSleeps(ws))
    && (forall i :: 0 <= i < |ws| && ws[i].Exited? ==> !running && waiting == 0)
  }

  /** First in, first out: the jobs taken are the first ones submitted, in order. */
  predicate TakenInOrder(s: State) {
    && |s.queue| <= |s.jobs|
    && Takes(s.log) == seq(TakenCount(s), i requires 0 <= i < TakenCount(s) => i)
  }

  predicate PoolInv(s: State) {
    WakeInv(s.workers, |s.queue|, s.running) && TakenInOrder(s)
  }

  lemma TakesAppend(log: seq<Event>, es: seq<Event>)
    requires |es| <= 2
    ensures (forall e :: e in es ==> !e.Taken?) ==> Takes(log + es) == Takes(log)
    ensures |es| == 1 && es[0].Taken? ==> Takes(log + es) == Takes(log) + [es[0].id]
  {
    if |es| == 0 {
      assert log + es == log;
    } else if |es| == 1 {
      assert (log + es)[..|log|] == log;
    } else {
      assert (log + es)[..|log| + 1][..|log|] == log;
      assert (log + es)[..|log| + 1] == log + [es[0]];
      assert es[0] in es && es[1] in es;
    }
  }

  lemma {:induction false} SubsetSize(x: set<nat>, y: set<nat>)
    requires x <= y
    ensures |x| <= |y|
  {
    if x != {} {
      var e :| e in x;
      SubsetSize(x - {e}, y - {e});
    }
  }

  /** `pthread_cond_signal` under the queue lock: one more job, at least one more wakeup if anybody sleeps. */
  lemma SignalSuffices(ws: seq<Worker>, waiting: nat, wake: set<nat>)
    requires WakeInv(ws, waiting, true)
    requires forall i :: i in wake ==> i < |ws| && ws[i].PoolAsleep?
    requires wake == {} ==> !SomeoneSleeps(ws)
    ensures WakeInv(WakePool(ws, wake), waiting + 1, true)
  {
    var ws' := WakePool(ws, wake);
    if SomeoneSleeps(ws') {
      var i :| 0 <= i < |ws'| && ws'[i].PoolAsleep?;
      assert ws[i].PoolAsleep?;
      var j :| j in wake;
      var woken := PoolWokenSet(ws);
      assert woken + {j} <= PoolWokenSet(ws');
      assert j !in woken;
      SubsetSize(woken + {j}, PoolWokenSet(ws'));
    }
  }

  /** `pthread_cond_broadcast` at shutdown. */
  lemma BroadcastSuffices(ws: seq<Worker>, waiting: nat, all: set<nat>)
    requires WakeInv(ws, waiting, true) && (forall i :: 0 <= i < |ws| && IsAsleep(ws, i) ==> i in all)
    ensures WakeInv(WakePool(ws, all), waiting, false)
  {
    var ws' := WakePool(ws, all);
    forall i | 0 <= i < |ws'| ensures !ws'[i].PoolAsleep? {
      var asleep := IsAsleep(ws, i);
    }
  }

  /** The queue mutex region of a worker: take a job, go to sleep, or leave. */
  lemma PollSuffices(ws: seq<Worker>, waiting: nat, running: bool, w: nat, x: Worker)
    requires WakeInv(ws, waiting, running) && w < |ws| && (ws[w].Checking? || ws[w].PoolWoken?)
    requires waiting == 0 ==> x == if running then PoolAsleep else Exited
    requires waiting > 0 ==> Busy(x).Some?
    ensures WakeInv(ws[w := x], if waiting == 0 then 0 else waiting - 1, running)
  {
    var ws' := ws[w := x];
    if ws[w].PoolWoken? {
      assert w in PoolWokenSet(ws);
      assert PoolWokenSet(ws') == PoolWokenSet(ws) - {w};
    } else {
      assert PoolWokenSet(ws') == PoolWokenSet(ws);
    }
    if SomeoneSleeps(ws') && waiting > 0 {
      var i :| 0 <= i < |ws'| && ws'[i].PoolAsleep?;
      assert ws[i].PoolAsleep?;
    }
  }

  /** Steps that neither take a job nor change who sleeps or was woken. */
  lemma SamePool(ws: seq<Worker>, ws': seq<Worker>, waiting: nat, running: bool)
    requires WakeInv(ws, waiting, running) && |ws'| == |ws|
    requires forall i :: 0 <= i < |ws| ==> (ws'[i].PoolAsleep? ==> ws[i].PoolAsleep?)
    requires forall i :: 0 <= i < |ws| ==> (ws[i].PoolWoken? ==> ws'[i].PoolWoken?)
    requires forall i :: 0 <= i < |ws| ==> (ws'[i].Exited? ==> ws[i].Exited?)
    ensures WakeInv(ws', waiting, running)
  {
    assert PoolWokenSet(ws) <= PoolWokenSet(ws');
    SubsetSize(PoolWokenSet(ws), PoolWokenSet(ws'));
    if SomeoneSleeps(ws') {
      var i :| 0 <= i < |ws'| && ws'[i].PoolAsleep?;
      assert ws[i].PoolAsleep?;
    }
  }

  lemma TakenNext(s: State, w: nat)
    requires TakenInOrder(s) && TraceInv(s) && w < |s.workers| && s.queue != []
    ensures TakenInOrder(DoPoll(s, w))
  {
    TakesAppend(s.log, [Taken(s.queue[0])]);
    assert s.queue[0] == TakenCount(s);
  }

  lemma PollKeeps(s: State, w: nat)
    requires PoolInv(s) && TraceInv(s) && Enabled(s, Step(w, Poll)) && Busy(s.workers[w]) == None
    ensures PoolInv(DoPoll(s, w))
  {
    PollSuffices(s.workers, |s.queue|, s.running, w, DoPoll(s, w).workers[w]);
    if s.queue != [] {
      TakenNext(s, w);
    }
  }

  lemma BusyLog(s: State, w: nat, c: Choice)
    requires Enabled(s, Step(w, c)) && Busy(s.workers[w]).Some?
    ensures var t := DoStep(s, w, c);
            && s.log <= t.log && |t.log| <= |s.log| + 2 && (forall e :: e in t.log[|s.log|..] ==> !e.Taken?)
            && t.queue == s.queue && t.jobs == s.jobs && t.running == s.running && |t.workers| == |s.workers|
  {
    if s.workers[w].Handling? {
      HandlerEvents(s, w, c);
    }
  }

  lemma BusyWorkers(s: State, w: nat, c: Choice)
    requires Enabled(s, Step(w, c)) && Busy(s.workers[w]).Some?
    ensures var ws, ws' := s.workers, DoStep(s, w, c).workers;
            forall i :: 0 <= i < |ws| ==>
              && ws'[i].PoolAsleep? == ws[i].PoolAsleep? && ws'[i].PoolWoken? == ws[i].PoolWoken?
              && ws'[i].Exited? == ws[i].Exited?
  {
  }

  lemma BusyKeeps(s: State, w: nat, c: Choice)
    requires PoolInv(s) && Enabled(s, Step(w, c)) && Busy(s.workers[w]).Some?
    ensures PoolInv(DoStep(s, w, c))
  {
    var t := DoStep(s, w, c);
    BusyLog(s, w, c);
    BusyWorkers(s, w, c);
    SamePool(s.workers, t.workers, |s.queue|, s.running);
    TakesAppend(s.log, t.log[|s.log|..]);
    assert t.log == s.log + t.log[|s.log|..];
  }

  lemma PoolStepKeeps(s: State, act: Action)
    requires PoolInv(s) && TraceInv(s) && Enabled(s, act)
    ensures PoolInv(Do(s, act))
  {
    match act
    case Submit(job, wake) =>
      SignalSuffices(s.workers, |s.queue|, wake);
      TakesAppend(s.log, [Submitted(|s.jobs|)]);
    case Shutdown =>
      BroadcastSuffices(s.workers, |s.queue|, set i | 0 <= i < |s.workers| && IsAsleep(s.workers, i));
    case SpuriousPool(w) => SamePool(s.workers, Do(s, act).workers, |s.queue|, s.running);
    case SpuriousLock(w) => SamePool(s.workers, Do(s, act).workers, |s.queue|, s.running);
    case Step(w, c) =>
      if Busy(s.workers[w]).Some? {
        BusyKeeps(s, w, c);
      } else {
        PollKeeps(s, w);
      }
  }

  /** In every reachable state a queued job has a wakeup on its way, or no worker is asleep. */
  lemma NoLostWakeup(s: State)
    requires PoolInv(s) && s.queue != [] && SomeoneSleeps(s.workers)
    ensures exists w :: 0 <= w < |s.workers| && s.workers[w].PoolWoken? && Enabled(s, Step(w, Poll))
  {
    assert PoolWokenSet(s.workers) != {};
    var w :| w in PoolWokenSet(s.workers);
    assert Enabled(s, Step(w, Poll));
  }
}
