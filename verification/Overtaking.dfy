/**
  What the lock does not give: a writer can wait while any number of readers that came after it are served. The
  run is built step by step.
*/
module Overtaking {
  import opened Bytes
  import opened Protocol
  import opened Payloads
  import opened LockRules
  import opened Server
  import opened Paths

  /** A download comes in while no writer holds the name, and gets its read lock. */
  lemma ReaderEnters(s: State, p: Path, w: nat, n: Name, readers: nat) returns (q: Path)
    requires Leads(s, p) && Awake(p.end) && w < |p.end.workers| && p.end.workers[w] == Checking
    requires NamesFile(p.end.fs, n) && EntryAt(p.end.locks, n) == Entry(0, readers)
    ensures Leads(s, q) && Awake(q.end) && p.end.log <= q.end.log
    ensures |q.end.workers| == |p.end.workers|
    ensures forall i :: 0 <= i < |p.end.workers| && i != w ==> q.end.workers[i] == p.end.workers[i]
    ensures q.end.workers[w].Handling? && q.end.workers[w].req == Download(n) && q.end.workers[w].stage.Sending?
    ensures EntryAt(q.end.locks, n) == Entry(0, readers + 1) && q.end.fs == p.end.fs
    ensures |q.end.jobs| == |p.end.jobs| + 1 && Acquired(|p.end.jobs|, Hold(n, Read)) in q.end.log
  {
    var job := Job(REQ_DOWNLOAD, EncodeName(n));
    ParseIsCanonical(REQ_DOWNLOAD, job.payload, Download(n));
    q := Arrive(s, p, w, job);
    q := Next(s, q, Step(w, Acquire));
    assert q.end.log[|q.end.log| - 1] == Acquired(|p.end.jobs|, Hold(n, Read));
    q := StartSending(s, q, w, n);
  }

  /** A writer finds the name taken by a reader, and goes to sleep; at first, or again. */
  lemma WriterSleeps(s: State, p: Path, w: nat, n: Name) returns (q: Path)
    requires Leads(s, p) && Awake(p.end) && w < |p.end.workers| && p.end.workers[w].Handling?
    requires HoldOf(p.end.workers[w].req) == Some(Hold(n, Write))
    requires p.end.workers[w].stage.Ready? || p.end.workers[w].stage.Woken?
    requires EntryAt(p.end.locks, n).readers > 0
    ensures Leads(s, q) && Awake(q.end) && q.end.log == p.end.log
    ensures q.end.workers == p.end.workers[w := p.end.workers[w].(stage := Asleep)]
    ensures EntryAt(q.end.locks, n) == EntryAt(p.end.locks, n)
    ensures q.end.fs == p.end.fs && q.end.jobs == p.end.jobs
  {
    q := Next(s, p, Step(w, Acquire));
  }

  /** A reader leaves, which wakes every sleeper, and its worker goes back to the queue. */
  lemma ReaderLeaves(s: State, p: Path, w: nat, n: Name, readers: nat) returns (q: Path)
    requires Leads(s, p) && Awake(p.end) && w < |p.end.workers| && p.end.workers[w].Handling?
    requires p.end.workers[w].req == Download(n) && p.end.workers[w].stage.Sending?
    requires EntryAt(p.end.locks, n) == Entry(0, readers + 1)
    ensures Leads(s, q) && Awake(q.end) && p.end.log <= q.end.log
    ensures q.end.workers == WakeLockers(p.end.workers)[w := Checking]
    ensures EntryAt(q.end.locks, n) == Entry(0, readers) && q.end.fs == p.end.fs && q.end.jobs == p.end.jobs
  {
    q := Next(s, p, Step(w, Release(Times(0, 0, 0))));
    q := Next(s, q, Step(w, CloseSocket));
    assert q.end.workers == WakeLockers(p.end.workers)[w := Checking];
  }

  /** One reader at work, a worker free, and a writer asleep for the name. */
  predicate Queued(s: State, reader: nat, free: nat, writer: nat, n: Name, id: nat) {
    && Awake(s) && reader < |s.workers| && free < |s.workers| && writer < |s.workers|
    && reader != free && writer != free && writer != reader
    && s.workers[reader].Handling? && s.workers[reader].req == Download(n) && s.workers[reader].stage.Sending?
    && s.workers[free] == Checking
    && s.workers[writer] == Handling(id, Delete(n), Asleep)
    && EntryAt(s.locks, n) == Entry(0, 1) && NamesFile(s.fs, n)
  }

  /** Another reader comes in before the one at work leaves; the woken writer finds the name taken again. */
  lemma OneMoreReader(s: State, p: Path, reader: nat, free: nat, writer: nat, n: Name, id: nat) returns (q: Path)
    requires Leads(s, p) && Queued(p.end, reader, free, writer, n, id)
    ensures Leads(s, q) && Queued(q.end, free, reader, writer, n, id) && p.end.log <= q.end.log
    ensures |q.end.jobs| == |p.end.jobs| + 1 && Acquired(|p.end.jobs|, Hold(n, Read)) in q.end.log
  {
    q := ReaderEnters(s, p, free, n, 1);
    var before := q.end.workers;
    q := ReaderLeaves(s, q, reader, n, 1);
    assert q.end.workers[writer] == before[writer].(stage := Woken) && q.end.workers[free] == before[free];
    q := WriterSleeps(s, q, writer, n);
  }

  lemma {:induction false} ManyReaders(s: State, p: Path, reader: nat, free: nat, writer: nat, n: Name, id: nat,
                                       k: nat) returns (q: Path)
    requires Leads(s, p) && Queued(p.end, reader, free, writer, n, id)
    ensures Leads(s, q) && writer < |q.end.workers| && q.end.workers[writer] == Handling(id, Delete(n), Asleep)
    ensures p.end.log <= q.end.log
    ensures forall j :: |p.end.jobs| <= j < |p.end.jobs| + k ==> Acquired(j, Hold(n, Read)) in q.end.log
    decreases k
  {
    if k == 0 {
      q := p;
    } else {
      var p' := OneMoreReader(s, p, reader, free, writer, n, id);
      q := ManyReaders(s, p', free, reader, writer, n, id, k - 1);
    }
  }

  /** From the start of the server: one download at work, and a delete of the same name waiting for it. */
  lemma WriterQueues(s: State, n: Name) returns (q: Path)
    requires Init(s) && |s.workers| >= 3 && NamesFile(s.fs, n)
    ensures Leads(s, q) && Queued(q.end, 0, 1, 2, n, 1) && |q.end.jobs| == 2
  {
    q := Path([], s);
    q := ReaderEnters(s, q, 0, n, 0);
    var job := Job(REQ_DELETE, EncodeName(n));
    ParseIsCanonical(REQ_DELETE, job.payload, Delete(n));
    q := Arrive(s, q, 2, job);
    q := WriterSleeps(s, q, 2, n);
  }

  /**
    Writers can starve: on every server with three workers or more, every existing file and every number `k`, some
    run has a writer, job 1, still asleep for the file when `k` downloads submitted after it have had their lock.
  */
  lemma WritersCanStarve(s: State, n: Name, k: nat) returns (acts: seq<Action>, t: State)
    requires Init(s) && |s.workers| >= 3 && ValidName(n) && n in s.fs.dir
    ensures Runs(s, acts, t)
    ensures |t.workers| >= 3 && t.workers[2] == Handling(1, Delete(n), Asleep)
    ensures forall j :: 2 <= j < 2 + k ==> Acquired(j, Hold(n, Read)) in t.log
  {
    var p := WriterQueues(s, n);
    var q := ManyReaders(s, p, 0, 1, 2, n, 1, k);
    acts, t := q.acts, q.end;
  }
}
