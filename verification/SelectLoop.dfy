/** `net_run_select_loop` as the imperative program it is: an array of client descriptors, scanned and updated in place. */
module SelectLoop {
  import opened Bytes
  import opened Descriptors
  import Protocol

  /** Appending one enabled action to a run. */
  lemma {:induction false} RunsThen(s: State, acts: seq<Action>, t: State, a: Action)
    requires Runs(s, acts, t) && Enabled(t, a)
    ensures Runs(s, acts + [a], Do(t, a))
    decreases |acts|
  {
    if acts == [] {
      assert [a][1..] == [];
    } else {
      RunsThen(Do(s, acts[0]), acts[1..], t, a);
      assert (acts + [a])[1..] == acts[1..] + [a];
    }
  }

  /** The element of `client_fds` that stands for a slot. */
  function Cell(slot: Slot): int {
    if slot.Empty? then -1 else slot.fd
  }

  /** The ready bits are the ready descriptors other than the listener's. */
  ghost predicate BitsAre(s: State, ready: set<Fd>) {
    forall fd :: (fd in ready && fd != s.listener) == (fd in Bits(s))
  }

  lemma {:induction false} BitsForAll(slots: seq<Slot>, ready: set<Fd>, j: nat)
    requires j < |slots| && slots[j].Watched? && slots[j].fd in ready
    ensures slots[j].fd in BitsFor(slots, ready)
  {
    var n := |slots| - 1;
    if j < n {
      assert slots[..n][j] == slots[j];
      BitsForAll(slots[..n], ready, j);
    }
  }

  lemma SelectedBits(s: State, ready: set<Fd>)
    requires Inv(s) && Enabled(s, Select(ready))
    ensures BitsAre(Do(s, Select(ready)), ready)
  {
    var bits := BitsFor(s.slots, ready);
    forall fd ensures (fd in ready && fd != s.listener) == (fd in bits) {
      if fd in ready && fd != s.listener {
        assert IsWatched(s, fd);
        var j :| 0 <= j < |s.slots| && s.slots[j].Watched? && s.slots[j].fd == fd;
        BitsForAll(s.slots, ready, j);
      } else if fd in bits {
        BitsForSlots(s.slots, ready, fd);
        var j :| 0 <= j < |s.slots| && s.slots[j] == Watched(fd, bits[fd]);
        NotTheListener(s, j);
      }
    }
  }

  /** A watched slot never holds the listener's number. */
  lemma NotTheListener(s: State, j: nat)
    requires Inv(s) && LiveSlot(s, j)
    ensures s.slots[j].fd != s.listener
  {
    assert PlaceOk(s, InSlot(j));
  }

  /** What the invariant of the run gives the loop about one slot. */
  lemma SlotFacts(start: State, acts: seq<Action>, s: State, j: nat)
    requires Init(start) && Runs(start, acts, s) && LiveSlot(s, j)
    ensures s.slots[j].fd != s.listener
  {
    Descriptors.Reachable(start, acts, s);
    NotTheListener(s, j);
  }

  lemma BitsFacts(start: State, acts: seq<Action>, s: State, ready: set<Fd>)
    requires Init(start) && Runs(start, acts, s) && Enabled(s, Select(ready))
    ensures BitsAre(Do(s, Select(ready)), ready)
  {
    Descriptors.Reachable(start, acts, s);
    SelectedBits(s, ready);
  }

  /** What other threads leave to the loop: its own state, what it gave to the pool, and whatever is closed. */
  predicate Beside(s: State, t: State) {
    && t.main == s.main && t.slots == s.slots && t.listener == s.listener && t.handed == s.handed
    && |t.place| == |s.place|
    && (forall c :: 0 <= c < |s.place| && s.place[c].Done? ==> t.place[c].Done?)
    && (forall c :: 0 <= c < |s.place| && Pooled(s.place[c]) ==> Pooled(t.place[c]))
  }

  /** Given to the pool: queued, with a worker, or closed by it. */
  predicate Pooled(p: Place) {
    p.Queued? || p.WithWorker? || p.Done?
  }

  /** The worker's own place of a socket is never the place of a closed connection. */
  lemma OthersBeside(s: State, a: Action)
    requires (ByWorker(a) || a.Interrupt?) && Enabled(s, a) && WorkersHold(s)
    ensures Beside(s, Do(s, a))
  {
  }

  /** Sockets in the queue and with workers are not closed yet. */
  ghost predicate WorkersHold(s: State) {
    && (s.queue != [] ==> s.queue[0].conn < |s.place| && s.place[s.queue[0].conn].Queued?)
    && (forall w :: 0 <= w < |s.workers| && s.workers[w].Serving? ==>
          s.workers[w].sock.conn < |s.place| && s.place[s.workers[w].sock.conn].WithWorker?)
  }

  lemma HoldersKnown(start: State, acts: seq<Action>, s: State)
    requires Init(start) && Runs(start, acts, s)
    ensures WorkersHold(s)
  {
    Descriptors.Reachable(start, acts, s);
    assert PlaceOk(s, Queued(s.taken));
    forall w: nat | w < |s.workers| && s.workers[w].Serving?
      ensures s.workers[w].sock.conn < |s.place| && s.place[s.workers[w].sock.conn].WithWorker?
    {
      assert PlaceOk(s, WithWorker(w));
    }
  }

  /** A live slot holds a connection that is recorded there. */
  lemma SlotHolds(start: State, acts: seq<Action>, s: State, j: nat)
    requires Init(start) && Runs(start, acts, s) && LiveSlot(s, j)
    ensures s.slots[j].conn < |s.place| && s.place[s.slots[j].conn] == InSlot(j)
  {
    Descriptors.Reachable(start, acts, s);
    assert PlaceOk(s, InSlot(j));
  }

  /** The stream of a client holds a header the server accepts. */
  predicate GoodHeader(stream: seq<byte>) {
    |stream| >= 16 && stream[0] == 0xAE && stream[1] == 1
  }

  class ClientTable {
    const clientFds: array<int>
    const start: State
    /** The rest of the server: kernel table, queue and workers. */
    var st: State
    ghost var acts: seq<Action>

    /** The array shows the slots, and all that happened is a run of the transition system. */
    ghost predicate Valid()
      reads this, clientFds
    {
      && clientFds.Length == |st.slots|
      && (forall j :: 0 <= j < |st.slots| ==> clientFds[j] == Cell(st.slots[j]))
      && Init(start) && Runs(start, acts, st)
    }

    /** Fills the array with -1 before anything is accepted. */
    constructor (start: State)
      requires Init(start)
      ensures Valid() && st == start && this.start == start && acts == [] && fresh(clientFds)
    {
      this.start, st, acts := start, start, [];
      clientFds := new int[|start.slots|];
      new;
      for i := 0 to clientFds.Length
        invariant st == start && acts == []
        invariant forall j :: 0 <= j < i ==> clientFds[j] == -1
      {
        clientFds[i] := -1;
      }
    }

    /** One step of the transition system that leaves the slots alone. */
    method Act(a: Action)
      requires Valid() && Enabled(st, a) && Do(st, a).slots == st.slots
      modifies `st, `acts
      ensures Valid() && st == old(Do(st, a)) && acts == old(acts) + [a]
    {
      RunsThen(start, acts, st, a);
      acts := acts + [a];
      st := Do(st, a);
    }

    /** Other threads and signals: any number of worker steps, at any point between two system calls. */
    method Interfere()
      requires Valid()
      modifies `st, `acts
      ensures Valid() && Beside(old(st), st)
    {
      var n: nat := *;
      while n > 0
        invariant Valid() && Beside(old(st), st)
      {
        var a: Action := *;
        if (ByWorker(a) || a.Interrupt?) && Enabled(st, a) {
          HoldersKnown(start, acts, st);
          OthersBeside(st, a);
          Act(a);
        }
        n := n - 1;
      }
    }

    /** The descriptor set handed to `select`, and the largest number in it. */
    method BuildSet() returns (readSet: set<Fd>, maxFd: Fd)
      requires Valid() && st.main.Building?
      ensures forall fd :: fd in readSet <==> fd == st.listener || IsWatched(st, fd)
      ensures maxFd in readSet && forall fd :: fd in readSet ==> fd <= maxFd
    {
      readSet, maxFd := {st.listener}, st.listener;
      for i := 0 to clientFds.Length
        invariant forall fd :: fd in readSet <==>
                    fd == st.listener || exists j :: 0 <= j < i && st.slots[j].Watched? && st.slots[j].fd == fd
        invariant maxFd in readSet && forall fd :: fd in readSet ==> fd <= maxFd
      {
        if clientFds[i] != -1 {
          readSet := readSet + {clientFds[i]};
          if clientFds[i] > maxFd {
            maxFd := clientFds[i];
          }
        }
      }
    }

    /** The search for the first free element of the array. */
    method FreeSlot() returns (slot: int)
      requires Valid()
      ensures slot == if FirstEmpty(st.slots) < |st.slots| then FirstEmpty(st.slots) else -1
    {
      slot := -1;
      for i := 0 to clientFds.Length
        invariant forall j :: 0 <= j < i ==> st.slots[j].Watched?
        invariant slot == -1
      {
        if clientFds[i] == -1 {
          return i;
        }
      }
    }

    /**
      The accept half of an iteration, when the listener is ready: `accept` fails, or answers with some number that
      is not open. The new connection goes into the first free slot, or is closed when there is none.
    */
    method AcceptClient(answer: Option<Fd>)
      requires Valid() && st.main.Selected? && st.main.listening
      requires answer.Some? ==> answer.value !in st.open
      modifies `st, `acts, clientFds
      ensures Valid() && st.main == Scanning(0, old(Bits(st))) && st.listener == old(st.listener)
      ensures st.handed == old(st.handed)
      ensures answer == None ==> st.slots == old(st.slots) && st.place == old(st.place)
      ensures answer.Some? ==>
                var slot, conn := FirstEmpty(old(st.slots)), |old(st.place)|;
                && |st.place| == conn + 1
                && if slot < |old(st.slots)|
                   then
                     && st.slots == old(st.slots)[slot := Watched(answer.value, conn)]
                     && st.place[conn] == InSlot(slot) && clientFds[slot] == answer.value
                   else st.slots == old(st.slots) && st.place[conn] == Done
    {
      if answer == None {
        Act(AcceptFails);
        return;
      }
      var newFd := answer.value;
      var slot := FreeSlot();
      if slot == -1 {
        Act(Accept(newFd));
        Interfere();
        Act(CloseRefused);
      } else {
        Store(slot, newFd);
      }
    }

    /** `client_fds[slot] = new_fd`. */
    method Store(slot: nat, newFd: Fd)
      requires Valid() && Enabled(st, Accept(newFd)) && slot == FirstEmpty(st.slots) < |st.slots|
      modifies `st, `acts, clientFds
      ensures Valid() && st == old(Do(st, Accept(newFd))) && clientFds[slot] == newFd
    {
      RunsThen(start, acts, st, Accept(newFd));
      acts := acts + [Accept(newFd)];
      st := Do(st, Accept(newFd));
      clientFds[slot] := newFd;
    }

    /** `client_fds[i] = -1`. */
    method Clear(i: nat)
      requires Valid() && Enabled(st, ClearSlot) && i == Index(st)
      modifies `st, `acts, clientFds
      ensures Valid() && st.listener == old(st.listener)
      ensures st.handed == old(st.handed) && st.place == old(st.place)
      ensures clientFds[..] == old(clientFds[..])[i := -1]
      ensures st.main == if old(st.main).Stale? then Scanning(i + 1, old(Bits(st))) else Leaving(i + 1)
    {
      RunsThen(start, acts, st, ClearSlot);
      acts := acts + [ClearSlot];
      st := Do(st, ClearSlot);
      clientFds[i] := -1;
    }

    /**
      The two outcomes of reading a header: the socket goes to the pool, or it is closed; also when there is no
      memory for the job.
    */
    method Dispose(i: nat, ok: bool, memory: bool)
      requires Valid() && st.main == (if ok then Handing(i, Bits(st)) else Dropping(i, Bits(st))) && AtSlot(st)
      modifies `st, `acts
      ensures Valid() && st.main == Stale(i, old(Bits(st))) && st.slots == old(st.slots)
      ensures st.listener == old(st.listener)
      ensures Disposed(old(st), st, st.slots[i].conn, ok && memory)
    {
      SlotHolds(start, acts, st, i);
      if !ok {
        Act(CloseSlot);
      } else {
        Act(if memory then SubmitSlot else SubmitFails);
      }
    }

    /** The connection was given to the pool, behind all those given before; or it is closed, and the pool got nothing. */
    static predicate Disposed(s: State, t: State, conn: nat, given: bool) {
      && conn < |t.place|
      && t.handed == (if given then s.handed + [conn] else s.handed)
      && (if given then Pooled(t.place[conn]) else t.place[conn] == Done)
    }

    /** `handle_client_readable`, and the close that follows a refused header. */
    method ReadAndDispose(i: nat, sock: Protocol.Socket, memory: bool)
      requires Valid() && st.main.Scanning? && st.main.i == i && Enabled(st, ReadHeader(true))
      modifies `st, `acts, sock`incoming
      ensures Valid() && st.main == Stale(i, old(Bits(st))) && st.slots == old(st.slots)
      ensures st.listener == old(st.listener)
      ensures Disposed(old(st), st, st.slots[i].conn, GoodHeader(old(sock.incoming)) && memory)
    {
      var ok := ReadsHeader(sock);
      Act(ReadHeader(ok));
      Interfere();
      Dispose(i, ok, memory);
    }

    /**
      A ready client on slot `i`: one whose stream holds a whole and acceptable header is given to the pool, if
      there is memory for its job; any other is closed here. In both cases its slot is emptied.
    */
    method HandleReadable(i: nat, sock: Protocol.Socket, memory: bool)
      requires Valid() && st.main.Scanning? && st.main.i == i && Enabled(st, ReadHeader(true))
      modifies `st, `acts, clientFds, sock`incoming
      ensures Valid() && st.main == Scanning(i + 1, old(Bits(st))) && st.listener == old(st.listener)
      ensures clientFds[..] == old(clientFds[..])[i := -1]
      ensures Disposed(old(st), st, old(st.slots[i].conn), GoodHeader(old(sock.incoming)) && memory)
    {
      ReadAndDispose(i, sock, memory);
      Interfere();
      Clear(i);
    }

    /** `recv_full` of the header and `parse_header`. */
    method ReadsHeader(sock: Protocol.Socket) returns (ok: bool)
      modifies sock`incoming
      ensures ok == GoodHeader(old(sock.incoming))
    {
      var buf := new byte[Protocol.HEADER_SIZE];
      ghost var stream := sock.incoming;
      var got := Protocol.RecvFull(sock, buf, Protocol.HEADER_SIZE);
      if got < Protocol.HEADER_SIZE {
        return false;
      }
      assert buf[..] == stream[..16];
      assert buf[0] == stream[..16][0] && buf[1] == stream[..16][1];
      ok := Protocol.ParseHeader(buf[..]).Some?;
    }

    /**
      The scan of the array for readable clients: `FD_ISSET` on each watched number. Each ready client leaves its
      slot, and no other does.
    */
    method Scan(ready: set<Fd>)
      requires Valid() && st.main.Scanning? && st.main.i == 0 && BitsAre(st, ready)
      modifies `st, `acts, clientFds
      ensures Valid() && st.main.Top?
      ensures forall j :: 0 <= j < clientFds.Length ==> clientFds[j] == Scanned(old(clientFds[j]), ready)
    {
      ghost var bits := Bits(st);
      ghost var listener := st.listener;
      ghost var before := clientFds[..];
      var i := 0;
      while i < clientFds.Length
        invariant 0 <= i <= clientFds.Length && Valid() && |before| == clientFds.Length
        invariant st.main == Scanning(i, bits) && st.listener == listener && BitsAre(st, ready)
        invariant forall j :: 0 <= j < i ==> clientFds[..][j] == Scanned(before[j], ready)
        invariant forall j :: i <= j < clientFds.Length ==> clientFds[..][j] == before[j]
      {
        ScanSlot(i, ready);
        i := i + 1;
      }
      Act(ScanDone);
      assert forall j :: 0 <= j < clientFds.Length ==> clientFds[j] == clientFds[..][j];
    }

    static function Scanned(fd: int, ready: set<Fd>): int {
      if fd >= 0 && fd in ready then -1 else fd
    }

    method ScanSlot(i: nat, ready: set<Fd>)
      requires Valid() && st.main.Scanning? && st.main.i == i < clientFds.Length && BitsAre(st, ready)
      modifies `st, `acts, clientFds
      ensures Valid() && st.main == Scanning(i + 1, old(Bits(st))) && st.listener == old(st.listener)
      ensures clientFds[..] == old(clientFds[..])[i := Scanned(old(clientFds[i]), ready)]
    {
      Interfere();
      var fd := clientFds[i];
      if fd != -1 {
        SlotFacts(start, acts, st, i);
      }
      if fd != -1 && fd in ready {
        var stream: seq<byte> := *;
        var ending: Protocol.Ending := *;
        var memory: bool := *;
        var sock := new Protocol.Socket(stream, ending);
        HandleReadable(i, sock, memory);
      } else {
        Act(Skip);
        assert clientFds[..] == clientFds[..][i := clientFds[i]];
      }
    }

    /** The answer of `select`, cut down to what it was asked about; what the loop does with the listener's part. */
    method AcceptIfReady(ready: set<Fd>, answer: Option<Fd>)
      requires Valid() && st.main.Selected? && st.main.listening == (st.listener in ready)
      modifies `st, `acts, clientFds
      ensures Valid() && st.main == Scanning(0, old(Bits(st))) && st.listener == old(st.listener)
      ensures forall j :: 0 <= j < clientFds.Length ==> Kept(old(clientFds[..])[j], clientFds[j], answer)
    {
      if st.listener in ready {
        AcceptClient(if answer.Some? && answer.value in st.open then None else answer);
      } else {
        Act(NothingToAccept);
      }
    }

    /** An element of the array before and after an accept: only a free one may change, to the number accepted. */
    static predicate Kept(was: int, now: int, answer: Option<Fd>) {
      now == was || (was == -1 && answer.Some? && now == answer.value)
    }

    /**
      One pass of the select loop. If `select` fails nothing changes; otherwise every client it reports leaves its
      slot, every other stays, and a free slot may get the client accepted in this pass.
    */
    method Iterate(reports: Option<set<Fd>>, answer: Option<Fd>)
      requires Valid() && st.main.Top? && st.running
      modifies `st, `acts, clientFds
      ensures Valid() && st.main.Top?
      ensures reports == None ==> clientFds[..] == old(clientFds[..])
      ensures reports.Some? ==> forall j :: 0 <= j < clientFds.Length ==>
                Passed(old(clientFds[..])[j], clientFds[j], reports.value, answer)
    {
      Act(Action.Loop);
      Interfere();
      var readSet, maxFd := BuildSet();
      if reports == None {
        Act(SelectFails);
        return;
      }
      ServeReady(readSet, reports.value, answer);
    }

    /** The rest of a pass, once `select` has reported. */
    method ServeReady(readSet: set<Fd>, reports: set<Fd>, answer: Option<Fd>)
      requires Valid() && st.main.Building?
      requires forall fd :: fd in readSet <==> fd == st.listener || IsWatched(st, fd)
      modifies `st, `acts, clientFds
      ensures Valid() && st.main.Top?
      ensures forall j :: 0 <= j < clientFds.Length ==> Passed(old(clientFds[..])[j], clientFds[j], reports, answer)
    {
      var ready := set fd | fd in readSet && fd in reports;
      ghost var before := clientFds[..];
      SelectNow(ready);
      Interfere();
      AcceptIfReady(ready, answer);
      ghost var between := clientFds[..];
      Scan(ready);
      forall j | 0 <= j < clientFds.Length
        ensures Passed(before[j], clientFds[j], reports, answer)
      {
        PassedThrough(before[j], between[j], clientFds[j], readSet, reports, answer);
      }
    }

    method SelectNow(ready: set<Fd>)
      requires Valid() && Enabled(st, Select(ready))
      modifies `st, `acts
      ensures Valid() && st == old(Do(st, Select(ready))) && BitsAre(st, ready)
    {
      BitsFacts(start, acts, st, ready);
      Act(Select(ready));
    }

    /** An element before and after a whole pass. */
    static predicate Passed(was: int, now: int, reports: set<Fd>, answer: Option<Fd>) {
      if was >= 0 then now == Scanned(was, reports)
      else now == was || (answer.Some? && now == answer.value)
    }

    static lemma PassedThrough(was: int, accepted: int, now: int, readSet: set<Fd>, reports: set<Fd>, answer: Option<Fd>)
      requires was >= -1 && (was >= 0 ==> was in readSet)
      requires Kept(was, accepted, answer) && now == Scanned(accepted, set fd | fd in readSet && fd in reports)
      ensures Passed(was, now, reports, answer)
    {
    }

    /** One step of the sweep: a client still watched is closed, and its element emptied. */
    method SweepOne(i: nat)
      requires Valid() && st.main == Leaving(i) && i < clientFds.Length
      modifies `st, `acts, clientFds
      ensures Valid() && st.main == Leaving(i + 1) && clientFds[..] == old(clientFds[..])[i := -1]
    {
      var fd := clientFds[i];
      Act(LeaveSlot);
      if fd != -1 {
        Interfere();
        Clear(i);
      } else {
        assert clientFds[..] == clientFds[..][i := -1];
      }
    }

    /** The sweep on the way out: every client not handed off is closed. */
    method Sweep()
      requires Valid() && st.main.Top? && !st.running
      modifies `st, `acts, clientFds
      ensures Valid() && st.main.Gone? && forall j :: 0 <= j < clientFds.Length ==> clientFds[j] == -1
    {
      Act(Stop);
      var i := 0;
      while i < clientFds.Length
        invariant 0 <= i <= clientFds.Length && Valid() && st.main == Leaving(i)
        invariant forall j :: 0 <= j < i ==> clientFds[..][j] == -1
      {
        Interfere();
        SweepOne(i);
        i := i + 1;
      }
      Act(Leave);
      assert forall j :: 0 <= j < clientFds.Length ==> clientFds[..][j] == clientFds[j];
    }

    /** `net_run_select_loop`, followed for `rounds` iterations at most. */
    method Run(rounds: nat) returns (left: bool)
      requires Valid() && st.main.Top?
      modifies `st, `acts, clientFds
      ensures Valid() && if left then st.main.Gone? else st.main.Top?
    {
      var i := 0;
      while st.running && i < rounds
        invariant Valid() && st.main.Top?
        decreases rounds - i
      {
        var reports: Option<set<Fd>> := *;
        var answer: Option<Fd> := *;
        Iterate(reports, answer);
        i := i + 1;
      }
      left := !st.running;
      if left {
        Sweep();
      }
    }
  }
}
