/**
  The heap structures beside the transition system: over whole runs, step for step, the linked lock table shows the
  counters of the server's lock map, and the linked job queue shows its queue.
*/
module Regions {
  import opened Bytes
  import opened Payloads
  import opened LockRules
  import opened Server
  import opened LockSafety
  import opened Atomicity
  import opened Traces
  import opened Liveness
  import LockTable
  import JobQueue

  // ---------------------------------------------------------------- the lock table

  /** A worker between its first pass over a lock and the grant. */
  predicate Waits(x: Worker) {
    x.Handling? && (x.stage.Asleep? || x.stage.Woken?) && HoldOf(x.req).Some?
  }

  /** Is this step a pass over the lock of a name, or a release of it? */
  predicate Passes(s: State, a: Action) {
    a.Step? && a.choice.Acquire? && a.w < |s.workers| && s.workers[a.w].Handling? && HoldOf(s.workers[a.w].req).Some?
  }

  predicate Leaves(s: State, a: Action) {
    a.Step? && a.choice.Release? && a.w < |s.workers| && s.workers[a.w].Handling? && HoldOf(s.workers[a.w].req).Some?
  }

  /** All other steps leave the lock map alone. */
  lemma LocksElsewhere(s: State, a: Action)
    requires Enabled(s, a) && !Passes(s, a) && !Leaves(s, a)
    ensures Do(s, a).locks == s.locks
  {
    if a.Step? && s.workers[a.w].Handling? {
      LocksUntouched(s, a.w, a.choice);
    }
  }

  lemma PoolNeverWaits(s: State, w: nat, c: Choice)
    requires Enabled(s, Step(w, c)) && !s.workers[w].Handling?
    ensures !Waits(DoStep(s, w, c).workers[w])
  {
  }

  lemma OthersNeverWait(s: State, w: nat, c: Choice)
    requires Enabled(s, Step(w, c)) && s.workers[w].Handling? && !c.Acquire?
    ensures !Waits(DoStep(s, w, c).workers[w])
  {
    if c.Call? {
      CallStaysInside(s.fs, s.workers[w].req, s.workers[w].stage, c.call);
    }
  }

  lemma PassKeepsRequest(s: State, w: nat)
    requires Enabled(s, Step(w, Acquire)) && s.workers[w].Handling?
    ensures Passes(s, Step(w, Acquire)) && DoStep(s, w, Acquire).workers[w].Handling?
    ensures DoStep(s, w, Acquire).workers[w].req == s.workers[w].req
  {
  }

  /** A worker's own step leaves it waiting only if it is a pass over its lock. */
  lemma OnlyPassesWait(s: State, w: nat, c: Choice)
    requires Enabled(s, Step(w, c)) && Waits(DoStep(s, w, c).workers[w])
    ensures Passes(s, Step(w, c)) && DoStep(s, w, c).workers[w].req == s.workers[w].req
  {
    if !s.workers[w].Handling? {
      PoolNeverWaits(s, w, c);
    } else if !c.Acquire? {
      OthersNeverWait(s, w, c);
    } else {
      PassKeepsRequest(s, w);
    }
  }

  /** Whoever waits after a step waited before it for the same lock, or has just passed over it. */
  lemma WaitersBefore(s: State, a: Action, w: nat)
    requires Enabled(s, a) && w < |s.workers| && w < |Do(s, a).workers| && Waits(Do(s, a).workers[w])
    ensures s.workers[w].Handling? && Do(s, a).workers[w].req == s.workers[w].req
    ensures (Passes(s, a) && a.w == w) || Waits(s.workers[w])
  {
    if a.Step? {
      if a.w == w {
        OnlyPassesWait(s, w, a.choice);
      } else {
        OthersWoken(s, a.w, a.choice, w);
      }
    }
  }

  /** The handlers only ever lock names that an entry can hold. */
  lemma LockedNamesAreStorable(start: State, acts: seq<Action>, s: State, w: nat)
    requires Init(start) && Runs(start, acts, s) && w < |s.workers| && s.workers[w].Handling?
    requires HoldOf(s.workers[w].req).Some?
    ensures LockTable.Storable(HoldOf(s.workers[w].req).value.name)
  {
    Traces.Reachable(start, acts, s);
    assert WorkerOk(Replay(View(start.fs), s.log), s.fs, s.workers[w]);
  }

  class LockRegions {
    const start: State
    const table: LockTable.Table
    var st: State
    ghost var acts: seq<Action>
    /** The entry pointer each worker keeps across its condition waits. */
    var kept: map<nat, LockTable.LockEntry>

    /** The table shows the lock map, and every waiting worker keeps the entry of the name it waits for. */
    ghost predicate Valid()
      reads this, table, table.repr, table.spine
    {
      && Init(start) && Runs(start, acts, st)
      && table.Valid() && table.model == st.locks
      && forall w :: 0 <= w < |st.workers| && Waits(st.workers[w]) ==> Keeps(w)
    }

    ghost predicate Keeps(w: nat)
      requires w < |st.workers| && Waits(st.workers[w])
      reads this, table
    {
      w in kept && kept[w] in table.repr && kept[w].name == HoldOf(st.workers[w].req).value.name
    }

    constructor (start: State)
      requires Init(start)
      ensures Valid() && st == start && this.start == start && fresh(table) && table.repr == {}
    {
      this.start, st, acts, kept := start, start, [], map[];
      table := new LockTable.Table();
    }

    /** One step of the server, with what it does to the table. */
    method Perform(a: Action)
      requires Valid() && Enabled(st, a)
      modifies this, table, table.repr
      ensures Valid() && st == old(Do(st, a))
      ensures fresh(table.repr - old(table.repr)) && old(table.repr) <= table.repr
    {
      if Passes(st, a) {
        Pass(a.w);
      } else if Leaves(st, a) {
        Leave(a.w, a.choice.times);
      } else {
        LocksElsewhere(st, a);
        Advance(a, -1);
      }
    }

    /** The state moves on; the table already shows the new lock map. */
    method Advance(a: Action, ghost pass: int)
      requires Init(start) && Runs(start, acts, st) && Enabled(st, a)
      requires table.Valid() && table.model == Do(st, a).locks
      requires pass == if Passes(st, a) then a.w else -1
      requires forall w :: 0 <= w < |st.workers| && Waits(st.workers[w]) ==> Keeps(w)
      requires Passes(st, a) ==>
                 a.w in kept && kept[a.w] in table.repr && kept[a.w].name == HoldOf(st.workers[a.w].req).value.name
      modifies `st, `acts
      ensures Valid() && st == old(Do(st, a))
    {
      ghost var before := st;
      RunsThen(start, acts, st, a);
      SameCrew(st, a);
      acts := acts + [a];
      st := Do(st, a);
      forall w: nat | w < |st.workers| && Waits(st.workers[w]) ensures Keeps(w) {
        WaitersBefore(before, a, w);
      }
    }

    /** A first pass looks the entry up, and keeps the pointer. */
    method LookUpEntry(w: nat)
      requires Valid() && w < |st.workers| && Passes(st, Step(w, Acquire))
      modifies this, table, table.repr
      ensures table.Valid() && st == old(st) && acts == old(acts)
      ensures fresh(table.repr - old(table.repr)) && old(table.repr) <= table.repr
      ensures var n := HoldOf(st.workers[w].req).value.name;
              && table.model == old(table.model)[n := EntryAt(old(table.model), n)]
              && w in kept && kept[w] in table.repr && kept[w].name == n
      ensures forall i :: 0 <= i < |st.workers| && Waits(st.workers[i]) ==> Keeps(i)
    {
      var n := HoldOf(st.workers[w].req).value.name;
      LockedNamesAreStorable(start, acts, st, w);
      var e := table.GetEntry(n);
      kept := kept[w := e];
    }

    /** The end of a pass, on the kept entry. */
    method TakeKept(w: nat, ghost before: map<Name, Entry>)
      requires Init(start) && Runs(start, acts, st) && table.Valid() && before == st.locks
      requires w < |st.workers| && Enabled(st, Step(w, Acquire)) && Passes(st, Step(w, Acquire))
      requires forall i :: 0 <= i < |st.workers| && Waits(st.workers[i]) ==> Keeps(i)
      requires var n := HoldOf(st.workers[w].req).value.name;
               && w in kept && kept[w] in table.repr && kept[w].name == n
               && (table.model == before || table.model == before[n := EntryAt(before, n)])
      modifies this, table, table.repr
      ensures Valid() && st == old(DoStep(st, w, Acquire)) && table.repr == old(table.repr)
    {
      var h := HoldOf(st.workers[w].req).value;
      ghost var looked := table.model;
      var granted := table.TakeIfFree(kept[w], h.kind);
      PassShows(st, w, looked, table.model);
      Advance(Step(w, Acquire), w);
    }

    /** A first pass looks the entry up; a re-check uses the pointer kept across the wait. */
    method Pass(w: nat)
      requires Valid() && w < |st.workers| && Enabled(st, Step(w, Acquire)) && Passes(st, Step(w, Acquire))
      modifies this, table, table.repr
      ensures Valid() && st == old(DoStep(st, w, Acquire))
      ensures fresh(table.repr - old(table.repr)) && old(table.repr) <= table.repr
    {
      if st.workers[w].stage.Ready? {
        LookUpEntry(w);
      } else {
        assert Waits(st.workers[w]);
      }
      TakeKept(w, st.locks);
    }

    method Leave(w: nat, times: Times)
      requires Valid() && w < |st.workers| && Enabled(st, Step(w, Release(times))) && Leaves(st, Step(w, Release(times)))
      modifies this, table, table.repr
      ensures Valid() && st == old(DoStep(st, w, Release(times)))
      ensures fresh(table.repr - old(table.repr)) && old(table.repr) <= table.repr
    {
      var h := HoldOf(st.workers[w].req).value;
      LockedNamesAreStorable(start, acts, st, w);
      table.Release(h.name, h.kind);
      Advance(Step(w, Release(times)), -1);
    }
  }

  /** What a pass over an entry does to the map of counters, whether or not the entry had to be created first. */
  lemma PassShows(s: State, w: nat, looked: map<Name, Entry>, after: map<Name, Entry>)
    requires w < |s.workers| && Enabled(s, Step(w, Acquire)) && Passes(s, Step(w, Acquire))
    requires var n := HoldOf(s.workers[w].req).value.name;
             n in looked && (looked == s.locks || looked == s.locks[n := EntryAt(s.locks, n)])
    requires var h := HoldOf(s.workers[w].req).value; var e := looked[h.name];
             after == looked[h.name := if Conflict(e, h.kind) then e else Grant(e, h.kind)]
    ensures DoStep(s, w, Acquire).locks == after
  {
  }

  /** Every run of the server drives the table along: at its end the list shows exactly the server's lock map. */
  method MirrorLocks(start: State, acts: seq<Action>, ghost end: State) returns (table: LockTable.Table)
    requires Init(start) && Runs(start, acts, end)
    ensures fresh(table) && table.Valid() && table.model == end.locks
  {
    var regions := new LockRegions(start);
    for i := 0 to |acts|
      invariant regions.Valid() && fresh(regions) && fresh(regions.table) && fresh(regions.table.repr)
      invariant Runs(regions.st, acts[i..], end)
    {
      assert acts[i..][1..] == acts[i + 1..];
      regions.Perform(acts[i]);
    }
    assert acts[|acts|..] == [];
    return regions.table;
  }

  // ---------------------------------------------------------------- the job queue

  /** Steps of a worker that is busy leave the queue alone; so do spurious wakeups. */
  lemma QueueElsewhere(s: State, a: Action)
    requires Enabled(s, a) && (a.SpuriousPool? || a.SpuriousLock? || (a.Step? && Busy(s.workers[a.w]).Some?))
    ensures Do(s, a).queue == s.queue && Do(s, a).running == s.running
  {
    if a.Step? {
      BusyLog(s, a.w, a.choice);
    }
  }

  /** What a worker does after its region of the queue mutex. */
  predicate Obeys(r: JobQueue.Poll<nat>, x: Worker) {
    match r
    case Took(id) => Busy(x) == Some(id)
    case Wait => x == PoolAsleep
    case Leave => x == Exited
  }

  class QueueRegions {
    const start: State
    const queue: JobQueue.Queue<nat>
    var st: State
    ghost var acts: seq<Action>

    /** The linked list shows the queue, and the flag is the pool's. */
    ghost predicate Valid()
      reads this, queue, queue.repr
    {
      && Init(start) && Runs(start, acts, st)
      && queue.Valid() && queue.Contents() == st.queue && queue.running == st.running
    }

    constructor (start: State)
      requires Init(start)
      ensures Valid() && st == start && this.start == start && fresh(queue) && queue.repr == {}
    {
      this.start, st, acts := start, start, [];
      queue := new JobQueue.Queue();
    }

    method Advance(a: Action)
      requires Init(start) && Runs(start, acts, st) && Enabled(st, a)
      requires queue.Valid() && queue.Contents() == Do(st, a).queue && queue.running == Do(st, a).running
      modifies `st, `acts
      ensures Valid() && st == old(Do(st, a))
    {
      RunsThen(start, acts, st, a);
      acts := acts + [a];
      st := Do(st, a);
    }

    /** A worker's region: what it finds in the list is what the transition system lets it do. */
    method PollRegion(w: nat) returns (r: JobQueue.Poll<nat>)
      requires Valid() && Enabled(st, Step(w, Poll)) && Busy(st.workers[w]) == None
      modifies this, queue
      ensures Valid() && st == old(DoStep(st, w, Poll)) && w < |st.workers| && Obeys(r, st.workers[w])
      ensures queue.repr == old(queue.repr)
    {
      r := queue.PollQueue();
      Advance(Step(w, Poll));
    }

    /** One step of the server, with what it does to the queue. */
    method Perform(a: Action)
      requires Valid() && Enabled(st, a)
      modifies this, queue, queue.repr
      ensures Valid() && st == old(Do(st, a)) && fresh(queue.repr - old(queue.repr))
    {
      if a.Submit? {
        queue.Submit(|st.jobs|);
        Advance(a);
      } else if a.Shutdown? {
        queue.Stop();
        Advance(a);
      } else if a.Step? && Busy(st.workers[a.w]) == None {
        var r := PollRegion(a.w);
      } else {
        QueueElsewhere(st, a);
        Advance(a);
      }
    }
  }

  /** Every run of the server drives the list along: at its end it shows exactly the server's queue. */
  method MirrorQueue(start: State, acts: seq<Action>, ghost end: State) returns (queue: JobQueue.Queue<nat>)
    requires Init(start) && Runs(start, acts, end)
    ensures fresh(queue) && queue.Valid() && queue.Contents() == end.queue && queue.running == end.running
  {
    var regions := new QueueRegions(start);
    for i := 0 to |acts|
      invariant regions.Valid() && fresh(regions) && fresh(regions.queue) && fresh(regions.queue.repr)
      invariant Runs(regions.st, acts[i..], end)
    {
      assert acts[i..][1..] == acts[i + 1..];
      regions.Perform(acts[i]);
    }
    assert acts[|acts|..] == [];
    return regions.queue;
  }
}
