/** A run of the select loop on every server: a client that connects and is ready reaches a worker. */
module HandOver {
  import opened Bytes
  import opened Descriptors
  import opened SelectLoop

  datatype Path = Path(acts: seq<Action>, end: State)

  predicate Leads(s: State, p: Path) {
    Runs(s, p.acts, p.end)
  }

  lemma Next(s: State, p: Path, a: Action) returns (q: Path)
    requires Leads(s, p) && Enabled(p.end, a)
    ensures Leads(s, q) && q.end == Do(p.end, a)
  {
    RunsThen(s, p.acts, p.end, a);
    q := Path(p.acts + [a], Do(p.end, a));
  }

  /** Slots that are not ready are skipped to the end of the scan. */
  lemma {:induction false} SkipToEnd(s: State, p: Path) returns (q: Path)
    requires Leads(s, p) && p.end.main.Scanning? && p.end.main.bits == map[] && p.end.main.i <= |p.end.slots|
    ensures Leads(s, q) && q.end == p.end.(main := Scanning(|p.end.slots|, map[]))
    decreases |p.end.slots| - p.end.main.i
  {
    if p.end.main.i == |p.end.slots| {
      q := p;
    } else {
      q := Next(s, p, Skip);
      q := SkipToEnd(s, q);
    }
  }

  lemma {:induction false} NoBits(slots: seq<Slot>, ready: set<Fd>)
    requires forall j :: 0 <= j < |slots| ==> slots[j].Empty?
    ensures BitsFor(slots, ready) == map[]
  {
    if slots != [] {
      NoBits(slots[..|slots| - 1], ready);
    }
  }

  /** The first iteration: the listener is ready, and the connection goes into the first slot. */
  lemma Connect(s: State, fd: Fd) returns (q: Path)
    requires Init(s) && s.running && s.slots != [] && fd != s.listener
    ensures Leads(s, q) && q.end.main.Top? && q.end.running && q.end.listener == s.listener
    ensures q.end.slots == s.slots[0 := Watched(fd, 0)] && q.end.queue == [] && q.end.taken == 0
    ensures q.end.workers == s.workers && q.end.handed == [] && q.end.place == [InSlot(0)]
    ensures q.end.open == s.open[fd := Client(0)]
  {
    q := Next(s, Path([], s), Action.Loop);
    q := Next(s, q, Select({s.listener}));
    NoBits(s.slots, {s.listener});
    q := Next(s, q, Accept(fd));
    q := SkipToEnd(s, q);
    q := Next(s, q, ScanDone);
  }

  /** The second iteration, as far as the hand-over: the client is ready, and its header is accepted. */
  lemma Submit(s: State, p: Path, fd: Fd) returns (q: Path)
    requires Leads(s, p) && p.end.main.Top? && p.end.running && p.end.listener != fd
    requires p.end.slots != [] && p.end.slots[0] == Watched(fd, 0)
    requires p.end.queue == [] && p.end.taken == 0 && p.end.handed == [] && p.end.place == [InSlot(0)]
    ensures Leads(s, q) && q.end.queue == [Socket(fd, 0)] && q.end.handed == [0] && q.end.taken == 0
    ensures q.end.workers == p.end.workers && q.end.place == [Queued(0)]
  {
    q := Next(s, p, Action.Loop);
    assert IsWatched(q.end, fd);
    q := Next(s, q, Select({fd}));
    BitsForAll(p.end.slots, {fd}, 0);
    q := Next(s, q, NothingToAccept);
    q := Next(s, q, ReadHeader(true));
    q := Next(s, q, SubmitSlot);
  }

  /**
    On every server with a slot and a worker, for every number the kernel may give, some run takes the first client
    from accept through its slot and the queue to a worker, under its own number.
  */
  lemma ClientReachesWorker(s: State, fd: Fd) returns (acts: seq<Action>, t: State)
    requires Init(s) && s.running && s.slots != [] && s.workers != [] && fd != s.listener
    ensures Runs(s, acts, t)
    ensures t.workers != [] && t.workers[0] == Serving(Socket(fd, 0), None)
    ensures t.place == [WithWorker(0)] && t.handed == [0]
  {
    var p := Connect(s, fd);
    p := Submit(s, p, fd);
    p := Next(s, p, Take(0));
    acts, t := p.acts, p.end;
  }
}
