/** After `threadpool_shutdown`, every run without spurious wakeups is finite, and ends drained. */
module Shutdown {
  import opened Bytes
  import opened Protocol
  import opened Payloads
  import opened LockRules
  import opened Server
  import opened LockSafety
  import opened Atomicity
  import opened Traces
  import opened Liveness

  /** No response is longer than this. */
  const MAX_FRAME := TWO_32 + 16

  function StageRank(stage: Stage): nat {
    match stage
    case Ready => MAX_FRAME + 9
    case Asleep => MAX_FRAME + 8
    case Woken => MAX_FRAME + 8
    case Locked => MAX_FRAME + 7
    case Opened(_) => MAX_FRAME + 6
    case Guarded(_) => MAX_FRAME + 5
    case Reading(_) => MAX_FRAME + 6
    case Sized(_, _) => MAX_FRAME + 5
    case Sending(_, size, _, off) => 3 + if off <= 24 + size then 24 + size - off else 0
    case Settled(_, _) => MAX_FRAME + 4
    case Faulted => 0
    case Replying(reply, off) => 3 + if off <= |Frame(reply)| then |Frame(reply)| - off else 0
  }

  /** How many steps a worker has at most ahead of it until it is gone, apart from jobs it has not taken yet. */
  function Rank(w: Worker): nat {
    match w
    case Exited => 0
    case Closing(_) => 2
    case Receiving(_, left) => MAX_FRAME + 9 + left
    case Handling(_, _, stage) => StageRank(stage)
    case _ => 1
  }

  function JobRank(jobs: seq<Job>, id: nat): nat {
    MAX_FRAME + 9 + if id < |jobs| then |jobs[id].payload| else 0
  }

  function Total(ws: seq<Worker>): nat {
    if ws == [] then 0 else Total(ws[..|ws| - 1]) + Rank(ws[|ws| - 1])
  }

  function QueueTotal(jobs: seq<Job>, queue: seq<nat>): nat {
    if queue == [] then 0 else JobRank(jobs, queue[0]) + QueueTotal(jobs, queue[1..])
  }

  function Work(s: State): nat {
    Total(s.workers) + QueueTotal(s.jobs, s.queue)
  }

  /** Lock waiters that were woken and have not re-checked yet. */
  function Rechecking(ws: seq<Worker>): set<nat> {
    set i | 0 <= i < |ws| && ws[i].Handling? && ws[i].stage.Woken?
  }

  /** The lexicographic pair (work left, waiters to re-check), as one number. */
  function Measure(s: State): nat {
    (|s.workers| + 1) * Work(s) + |Rechecking(s.workers)|
  }

  lemma {:induction false} TotalUpdate(ws: seq<Worker>, w: nat, x: Worker)
    requires w < |ws|
    ensures Total(ws[w := x]) == Total(ws) - Rank(ws[w]) + Rank(x)
  {
    var n := |ws| - 1;
    if w < n {
      assert ws[w := x][..n] == ws[..n][w := x];
      TotalUpdate(ws[..n], w, x);
    } else {
      assert ws[w := x][..n] == ws[..n];
    }
  }

  lemma {:induction false} TotalSame(ws: seq<Worker>, ws': seq<Worker>)
    requires |ws| == |ws'| && forall i :: 0 <= i < |ws| ==> Rank(ws[i]) == Rank(ws'[i])
    ensures Total(ws) == Total(ws')
  {
    if ws != [] {
      TotalSame(ws[..|ws| - 1], ws'[..|ws| - 1]);
    }
  }

  lemma {:induction false} FewRechecking(ws: seq<Worker>, n: nat, r: set<nat>)
    requires r == set i | 0 <= i < n && i < |ws| && ws[i].Handling? && ws[i].stage.Woken?
    ensures |r| <= n
  {
    if n > 0 {
      var r' := set i | 0 <= i < n - 1 && i < |ws| && ws[i].Handling? && ws[i].stage.Woken?;
      FewRechecking(ws, n - 1, r');
      assert r == r' || r == r' + {n - 1};
    }
  }

  lemma ErrorFrame(code: u16, msg: string)
    requires |msg| < 64
    ensures |Frame(ErrReply(code, msg))| < MAX_FRAME
  {
  }

  lemma TimedFrame(a: Store, req: Request, reply: Reply, e: Effect, times: Times)
    requires WellFormed(req) && Fixed(a, req, reply, e) && HoldOf(req).Some?
    requires req.Download? ==> reply.opcode == RESP_ERR
    ensures |Frame(Timed(req, reply, times))| < MAX_FRAME
  {
    assert Legal(a, req, Timed(req, reply, times), e);
  }

  lemma CallRank(fs: Fs, req: Request, stage: Stage, call: FileCall)
    requires CallEnabled(fs, req, stage, call)
    ensures StageRank(DoCall(fs, req, stage, call).1) < StageRank(stage)
  {
  }

  /** Leaving a critical section, with the longest reply that can be sent afterwards. */
  lemma ReleaseRank(a: Store, s: State, w: nat, c: Choice)
    requires Enabled(s, Step(w, c)) && c.Release? && WorkerOk(a, s.fs, s.workers[w])
    ensures Rank(DoStep(s, w, c).workers[w]) < Rank(s.workers[w])
  {
    var x := s.workers[w];
    if x.stage.Settled? {
      TimedFrame(a, x.req, x.stage.reply, x.stage.effect, c.times);
    }
  }

  lemma SendRank(a: Store, s: State, w: nat, c: Choice)
    requires GoodFs(s.fs) && w < |s.workers| && WorkerOk(a, s.fs, s.workers[w])
    requires Enabled(s, Step(w, c)) && (c.MapFile? || c.SendFile? || c.SendReply? || c.Finish?)
    ensures Rank(DoStep(s, w, c).workers[w]) < Rank(s.workers[w])
  {
  }

  /** A step of a handler uses up rank, unless it is a re-check that finds its entry still taken. */
  lemma HandlerRank(a: Store, s: State, w: nat, c: Choice)
    requires GoodFs(s.fs) && w < |s.workers| && WorkerOk(a, s.fs, s.workers[w])
    requires Enabled(s, Step(w, c)) && s.workers[w].Handling?
    ensures var x := DoStep(s, w, c).workers[w];
            || Rank(x) < Rank(s.workers[w])
            || (s.workers[w].stage.Woken? && x == s.workers[w].(stage := Asleep))
  {
    var x := s.workers[w];
    if c.Release? {
      ReleaseRank(a, s, w, c);
    } else if c.Call? {
      CallRank(s.fs, x.req, x.stage, c.call);
    } else if c.Answer? {
      if x.req.Reject? {
        ErrorFrame(x.req.code, x.req.msg);
      }
    } else if !c.Acquire? {
      SendRank(a, s, w, c);
    }
  }

  // ---------------------------------------------------------------- one step

  lemma {:induction false} QueueTotalSame(jobs: seq<Job>, queue: seq<nat>, jobs': seq<Job>)
    requires jobs <= jobs' && forall i :: 0 <= i < |queue| ==> queue[i] < |jobs|
    ensures QueueTotal(jobs, queue) == QueueTotal(jobs', queue)
  {
    if queue != [] {
      QueueTotalSame(jobs, queue[1..], jobs');
    }
  }

  /** The other workers keep their rank, whatever wakeups a step sends. */
  lemma StepTotal(s: State, w: nat, c: Choice)
    requires Enabled(s, Step(w, c))
    ensures var ws := DoStep(s, w, c).workers;
            |ws| == |s.workers| && Total(ws) == Total(s.workers) - Rank(s.workers[w]) + Rank(ws[w])
  {
    var ws := DoStep(s, w, c).workers;
    SameCrew(s, Step(w, c));
    TotalUpdate(s.workers, w, ws[w]);
    forall i | 0 <= i < |ws| ensures Rank(s.workers[w := ws[w]][i]) == Rank(ws[i]) {
      if i != w {
        OthersWoken(s, w, c, i);
      }
    }
    TotalSame(s.workers[w := ws[w]], ws);
  }

  predicate Spurious(act: Action) {
    act.SpuriousPool? || act.SpuriousLock?
  }

  /** A step makes progress: less work, or the same work and one waiter fewer to re-check. */
  predicate Progress(s: State, t: State) {
    && |t.workers| == |s.workers|
    && (Work(t) < Work(s) || (Work(t) == Work(s) && |Rechecking(t.workers)| < |Rechecking(s.workers)|))
  }

  lemma HandlerProgress(a0: Store, s: State, w: nat, c: Choice)
    requires Inv(a0, s) && Enabled(s, Step(w, c)) && s.workers[w].Handling?
    ensures Progress(s, DoStep(s, w, c))
  {
    var t := DoStep(s, w, c);
    var x, y := s.workers[w], t.workers[w];
    assert WorkerOk(Replay(a0, s.log), s.fs, x);
    HandlerRank(Replay(a0, s.log), s, w, c);
    HandlerEvents(s, w, c);
    StepTotal(s, w, c);
    if Rank(y) == Rank(x) {
      RecheckFails(s, w, c);
    }
  }

  lemma RecheckFails(s: State, w: nat, c: Choice)
    requires Enabled(s, Step(w, c)) && s.workers[w].Handling? && s.workers[w].stage.Woken?
    requires DoStep(s, w, c).workers[w] == s.workers[w].(stage := Asleep)
    ensures |Rechecking(DoStep(s, w, c).workers)| < |Rechecking(s.workers)|
  {
    var before, after := Rechecking(s.workers), Rechecking(DoStep(s, w, c).workers);
    assert w in before;
    assert after == before - {w};
  }

  lemma PollProgress(s: State, w: nat)
    requires TraceInv(s) && !s.running && Enabled(s, Step(w, Poll)) && Busy(s.workers[w]) == None
    ensures Progress(s, DoStep(s, w, Poll))
  {
    var t := DoStep(s, w, Poll);
    StepTotal(s, w, Poll);
    if s.queue != [] {
      assert QueueTotal(s.jobs, s.queue) == JobRank(s.jobs, s.queue[0]) + QueueTotal(s.jobs, s.queue[1..]);
    }
  }

  lemma StepProgress(a0: Store, s: State, act: Action)
    requires Inv(a0, s) && !s.running && Enabled(s, act) && !Spurious(act)
    ensures Progress(s, Do(s, act)) && !Do(s, act).running
  {
    var w, c := act.w, act.choice;
    if s.workers[w].Handling? {
      HandlerProgress(a0, s, w, c);
      HandlerFlag(s, w, c);
    } else if Busy(s.workers[w]).Some? {
      assert WorkerJobOk(s, w);
      StepTotal(s, w, c);
    } else {
      PollProgress(s, w);
    }
  }

  lemma HandlerFlag(s: State, w: nat, c: Choice)
    requires Enabled(s, Step(w, c)) && s.workers[w].Handling?
    ensures DoStep(s, w, c).running == s.running
  {
  }

  /** A lexicographic decrease, read as one number. */
  lemma Lexicographic(n: nat, work: nat, work': nat, r: nat, r': nat)
    requires (work' < work && r' <= n) || (work' == work && r' < r)
    ensures (n + 1) * work' + r' < (n + 1) * work + r
  {
    if work' < work {
      var d := work - work' - 1;
      assert (n + 1) * work == (n + 1) * work' + (n + 1) * d + (n + 1);
    }
  }

  lemma ProgressMeasure(s: State, t: State)
    requires Progress(s, t)
    ensures Measure(t) < Measure(s)
  {
    FewRechecking(t.workers, |t.workers|, Rechecking(t.workers));
    Lexicographic(|s.workers|, Work(s), Work(t), |Rechecking(s.workers)|, |Rechecking(t.workers)|);
  }

  // ---------------------------------------------------------------- whole runs

  predicate NoSpurious(acts: seq<Action>) {
    forall i :: 0 <= i < |acts| ==> !Spurious(acts[i])
  }

  /** After shutdown a run is no longer than the measure of where it starts. */
  lemma {:induction false} RunsAreFinite(a0: Store, s: State, acts: seq<Action>, t: State)
    requires Inv(a0, s) && !s.running && Runs(s, acts, t) && NoSpurious(acts)
    ensures |acts| + Measure(t) <= Measure(s) && !t.running
    decreases |acts|
  {
    if acts != [] {
      var u := Do(s, acts[0]);
      StepProgress(a0, s, acts[0]);
      ProgressMeasure(s, u);
      SimulationStep(a0, s, acts[0]);
      TraceStep(a0, s, acts[0]);
      RunsAreFinite(a0, u, acts[1..], t);
    }
  }

  /** No worker can take a step. */
  ghost predicate Stuck(s: State) {
    forall w: nat, c: Choice :: !Enabled(s, Step(w, c))
  }

  /** All workers are gone, the queue is empty, and every job ever submitted went through exactly once. */
  predicate Drained(s: State) {
    && (forall i :: 0 <= i < |s.workers| ==> s.workers[i].Exited?)
    && s.queue == []
    && |s.out| == |s.jobs|
    && (forall id: nat :: id < |s.jobs| ==> Finished(s.jobs[id], id, Of(s.log, id), s.out[id]))
    && Takes(s.log) == seq(|s.jobs|, i requires 0 <= i < |s.jobs| => i)
  }

  /** A state in which nothing more happens after shutdown is a drained one. */
  lemma StuckIsDrained(a0: Store, s: State)
    requires Inv(a0, s) && PoolInv(s) && !s.running && s.workers != [] && Stuck(s)
    ensures Drained(s)
  {
    forall i: nat | i < |s.workers| ensures s.workers[i].Exited? {
      if Awaited(s.workers[i]).Some? {
        var j := HolderMoves(a0, s, i);
      } else if !Waiting(s.workers[i]) {
        CanMove(a0, s, i);
      }
    }
    assert s.workers[0].Exited?;
    forall id: nat | id < |s.jobs| ensures Finished(s.jobs[id], id, Of(s.log, id), s.out[id]) {
      assert JobOk(s, id);
      assert Idle(s.workers, id);
    }
  }

  lemma InitPool(s: State)
    requires Init(s)
    ensures PoolInv(s)
  {
  }

  /** The pool's invariant over whole runs; the threads stay as many as `threadpool_init` made. */
  lemma {:induction false} RunKeepsPool(a0: Store, s: State, acts: seq<Action>, t: State)
    requires Inv(a0, s) && PoolInv(s) && Runs(s, acts, t)
    ensures PoolInv(t) && |t.workers| == |s.workers|
    decreases |acts|
  {
    if acts != [] {
      PoolStepKeeps(s, acts[0]);
      SimulationStep(a0, s, acts[0]);
      TraceStep(a0, s, acts[0]);
      SameCrew(s, acts[0]);
      RunKeepsPool(a0, Do(s, acts[0]), acts[1..], t);
    }
  }

  lemma ReachablePool(s: State, acts: seq<Action>, t: State)
    requires Init(s) && Runs(s, acts, t)
    ensures Inv(View(s.fs), t) && PoolInv(t) && t.workers != []
  {
    InitPool(s);
    InitSimulates(s);
    Reachable(s, acts, t);
    RunKeepsPool(View(s.fs), s, acts, t);
  }

  /** In every reachable state a job that waits beside a sleeping worker has a woken worker on its way to it. */
  lemma JobsAreFetched(s: State, acts: seq<Action>, t: State)
    requires Init(s) && Runs(s, acts, t) && t.queue != [] && SomeoneSleeps(t.workers)
    ensures |t.queue| <= |PoolWokenSet(t.workers)|
    ensures exists w :: 0 <= w < |t.workers| && t.workers[w].PoolWoken? && Enabled(t, Step(w, Poll))
  {
    ReachablePool(s, acts, t);
    NoLostWakeup(t);
  }

  /** In every reachable state whoever waits for a lock waits for a worker that can take a step. */
  lemma NoDeadlock(s: State, acts: seq<Action>, t: State, w: nat)
    requires Init(s) && Runs(s, acts, t) && w < |t.workers| && Awaited(t.workers[w]).Some?
    ensures exists j, c :: 0 <= j < |t.workers| && j != w && Held(t.workers[j]).Some? && Enabled(t, Step(j, c))
                           && Held(t.workers[j]).value.name == Awaited(t.workers[w]).value.name
  {
    Reachable(s, acts, t);
    var j := HolderMoves(View(s.fs), t, w);
    assert Enabled(t, Step(j, Move(t, j)));
  }

  lemma DrainedIsStuck(s: State)
    requires Drained(s)
    ensures Stuck(s)
  {
  }

  lemma AfterShutdown(a0: Store, s: State, after: seq<Action>, t: State)
    requires Inv(a0, s) && PoolInv(s) && s.workers != [] && !s.running
    requires Runs(s, after, t) && NoSpurious(after)
    ensures |after| <= Measure(s)
    ensures Inv(a0, t) && PoolInv(t) && t.workers != [] && !t.running
  {
    RunsAreFinite(a0, s, after, t);
    RunKeepsInv(a0, s, after, t);
    RunKeepsPool(a0, s, after, t);
  }

  /**
    Shutdown, whatever was queued and going on when it came: every run from there without spurious wakeups is
    finite, and it can go no further exactly when the workers are gone and every job went through once.
  */
  lemma ShutdownDrains(start: State, before: seq<Action>, s: State, after: seq<Action>, t: State)
    requires Init(start) && Runs(start, before, s) && !s.running && Runs(s, after, t) && NoSpurious(after)
    ensures |after| <= Measure(s)
    ensures Stuck(t) <==> Drained(t)
  {
    ReachablePool(start, before, s);
    AfterShutdown(View(start.fs), s, after, t);
    if Stuck(t) {
      StuckIsDrained(View(start.fs), t);
    }
    if Drained(t) {
      DrainedIsStuck(t);
    }
  }
}
