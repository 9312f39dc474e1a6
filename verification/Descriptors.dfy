/**
  Who owns which descriptor number (src/net.c, src/threadpool.c): the select loop's slots, the queue and the
  workers, over every run, with the kernel free to reuse any number that is not open.
*/
module Descriptors {
  import opened Bytes

  type Fd = nat

  /** What an open number refers to; connections are numbered in the order they were accepted. */
  datatype Use = Listener | Client(conn: nat) | WorkerFile(w: nat)

  /** One element of `client_fds`; a watched one remembers the connection it was stored for. */
  datatype Slot = Empty | Watched(fd: Fd, conn: nat)

  datatype Socket = Socket(fd: Fd, conn: nat)

  datatype WorkerFd = Resting | Serving(sock: Socket, file: Option<Fd>)

  /** Where the main thread is in its loop; `bits` are the ready descriptors with the connection each was for. */
  datatype Main =
    | Top                                                // about to test nervfs_running
    | Building                                           // building the descriptor set, then in select
    | Selected(listening: bool, bits: map<Fd, nat>)
    | Refusing(sock: Socket, bits: map<Fd, nat>)         // accepted, but no slot is free
    | Scanning(i: nat, bits: map<Fd, nat>)
    | Handing(i: nat, bits: map<Fd, nat>)                // header read, about to submit slot i
    | Dropping(i: nat, bits: map<Fd, nat>)               // header refused, about to close slot i
    | Stale(i: nat, bits: map<Fd, nat>)                  // slot i given away or closed, not yet cleared
    | Leaving(i: nat)                                    // closing slots on the way out
    | LeavingStale(i: nat)
    | Gone

  /** The one place that owns an accepted connection. */
  datatype Place = InSlot(j: nat) | InMain | Queued(ticket: nat) | WithWorker(w: nat) | Done

  datatype State = State(
    running: bool,
    open: map<Fd, Use>,
    listener: Fd,
    slots: seq<Slot>,
    main: Main,
    queue: seq<Socket>,
    taken: nat,                     // sockets that have left the queue
    handed: seq<nat>,               // the connections given to the pool so far
    workers: seq<WorkerFd>,
    place: seq<Place>,              // per accepted connection
    closes: seq<Option<Use>>)       // what each close of a client number hit

  datatype Action =
    | Interrupt                                  // SIGINT
    | Loop
    | Select(ready: set<Fd>)
    | SelectFails
    | Stop
    | NothingToAccept
    | Accept(fd: Fd)
    | AcceptFails
    | CloseRefused
    | Skip
    | ReadHeader(ok: bool)
    | SubmitSlot
    | SubmitFails                                // no memory for the job: the socket is closed instead
    | CloseSlot
    | ClearSlot
    | ScanDone
    | LeaveSlot
    | Leave
    | Take(w: nat)
    | OpenFile(w: nat, fd: Fd)
    | CloseFile(w: nat)
    | CloseClient(w: nat)

  // ---------------------------------------------------------------- steps

  function FirstEmpty(slots: seq<Slot>): (i: nat)
    ensures i <= |slots|
    ensures forall j :: 0 <= j < i ==> slots[j].Watched?
    ensures i < |slots| ==> slots[i].Empty?
  {
    if slots == [] || slots[0].Empty? then 0 else 1 + FirstEmpty(slots[1..])
  }

  predicate IsWatched(s: State, fd: Fd) {
    exists j :: 0 <= j < |s.slots| && s.slots[j].Watched? && s.slots[j].fd == fd
  }

  function Index(s: State): nat {
    match s.main
    case Scanning(i, _) => i
    case Handing(i, _) => i
    case Dropping(i, _) => i
    case Stale(i, _) => i
    case Leaving(i) => i
    case LeavingStale(i) => i
    case _ => 0
  }

  predicate AtSlot(s: State) {
    Index(s) < |s.slots| && s.slots[Index(s)].Watched?
  }

  predicate Enabled(s: State, a: Action) {
    match a
    case Interrupt => true
    case Loop => s.main.Top? && s.running
    case Select(ready) => s.main.Building? && forall fd :: fd in ready ==> fd == s.listener || IsWatched(s, fd)
    case SelectFails => s.main.Building?
    case Stop => s.main.Top? && !s.running
    case NothingToAccept => s.main.Selected? && !s.main.listening
    case Accept(fd) => s.main.Selected? && s.main.listening && fd !in s.open
    case AcceptFails => s.main.Selected? && s.main.listening
    case CloseRefused => s.main.Refusing?
    case Skip => s.main.Scanning? && s.main.i < |s.slots| && !(AtSlot(s) && s.slots[s.main.i].fd in s.main.bits)
    case ReadHeader(ok) => s.main.Scanning? && AtSlot(s) && s.slots[s.main.i].fd in s.main.bits
    case SubmitSlot => s.main.Handing? && AtSlot(s)
    case SubmitFails => s.main.Handing? && AtSlot(s)
    case CloseSlot => s.main.Dropping? && AtSlot(s)
    case ClearSlot => (s.main.Stale? || s.main.LeavingStale?) && Index(s) < |s.slots|
    case ScanDone => s.main.Scanning? && s.main.i == |s.slots|
    case LeaveSlot => s.main.Leaving? && s.main.i < |s.slots|
    case Leave => s.main.Leaving? && s.main.i == |s.slots|
    case Take(w) => w < |s.workers| && s.workers[w].Resting? && s.queue != []
    case OpenFile(w, fd) => w < |s.workers| && s.workers[w].Serving? && s.workers[w].file == None && fd !in s.open
    case CloseFile(w) => w < |s.workers| && s.workers[w].Serving? && s.workers[w].file.Some?
    case CloseClient(w) => w < |s.workers| && s.workers[w].Serving? && s.workers[w].file == None
  }

  /** The connection a slot was stored for, as seen by the loop when it built the descriptor set. */
  function BitsFor(slots: seq<Slot>, ready: set<Fd>): map<Fd, nat> {
    if slots == [] then map[]
    else
      var rest := BitsFor(slots[..|slots| - 1], ready);
      var last := slots[|slots| - 1];
      if last.Watched? && last.fd in ready then rest[last.fd := last.conn] else rest
  }

  /** `close(fd)`: whatever the number refers to now is closed. */
  function CloseNumber(s: State, fd: Fd): State {
    s.(open := s.open - {fd}, closes := s.closes + [if fd in s.open then Some(s.open[fd]) else None])
  }

  function Move(s: State, conn: nat, p: Place): State {
    if conn < |s.place| then s.(place := s.place[conn := p]) else s
  }

  function DoAccept(s: State, fd: Fd): State
    requires s.main.Selected?
  {
    var conn := |s.place|;
    var j := FirstEmpty(s.slots);
    var t := s.(open := s.open[fd := Client(conn)]);
    if j < |s.slots|
    then t.(slots := s.slots[j := Watched(fd, conn)], place := s.place + [InSlot(j)], main := Scanning(0, s.main.bits))
    else t.(place := s.place + [InMain], main := Refusing(Socket(fd, conn), s.main.bits))
  }

  function Do(s: State, a: Action): State
    requires Enabled(s, a)
  {
    match a
    case Interrupt => s.(running := false)
    case Select(ready) => s.(main := Selected(s.listener in ready, BitsFor(s.slots, ready)))
    case Loop => s.(main := Building)
    case SelectFails => s.(main := Top)
    case Stop => s.(main := Leaving(0))
    case NothingToAccept => s.(main := Scanning(0, s.main.bits))
    case Accept(fd) => DoAccept(s, fd)
    case AcceptFails => s.(main := Scanning(0, s.main.bits))
    case CloseRefused =>
      Move(CloseNumber(s, s.main.sock.fd), s.main.sock.conn, Done).(main := Scanning(0, s.main.bits))
    case Skip => s.(main := Scanning(s.main.i + 1, s.main.bits))
    case ReadHeader(ok) => s.(main := if ok then Handing(s.main.i, s.main.bits) else Dropping(s.main.i, s.main.bits))
    case SubmitSlot =>
      var slot := s.slots[s.main.i];
      Move(s, slot.conn, Queued(s.taken + |s.queue|))
        .(queue := s.queue + [Socket(slot.fd, slot.conn)], handed := s.handed + [slot.conn],
          main := Stale(s.main.i, s.main.bits))
    case SubmitFails =>
      var slot := s.slots[s.main.i];
      Move(CloseNumber(s, slot.fd), slot.conn, Done).(main := Stale(s.main.i, s.main.bits))
    case CloseSlot =>
      var slot := s.slots[s.main.i];
      Move(CloseNumber(s, slot.fd), slot.conn, Done).(main := Stale(s.main.i, s.main.bits))
    case ClearSlot =>
      s.(slots := s.slots[Index(s) := Empty],
         main := if s.main.Stale? then Scanning(s.main.i + 1, s.main.bits) else Leaving(s.main.i + 1))
    case ScanDone => s.(main := Top)
    case LeaveSlot =>
      if s.slots[s.main.i].Empty? then s.(main := Leaving(s.main.i + 1))
      else
        var slot := s.slots[s.main.i];
        Move(CloseNumber(s, slot.fd), slot.conn, Done).(main := LeavingStale(s.main.i))
    case Leave => s.(main := Gone)
    case Take(w) =>
      var sock := s.queue[0];
      Move(s, sock.conn, WithWorker(w))
        .(queue := s.queue[1..], taken := s.taken + 1, workers := s.workers[w := Serving(sock, None)])
    case OpenFile(w, fd) =>
      s.(open := s.open[fd := WorkerFile(w)], workers := s.workers[w := Serving(s.workers[w].sock, Some(fd))])
    case CloseFile(w) =>
      s.(open := s.open - {s.workers[w].file.value}, workers := s.workers[w := Serving(s.workers[w].sock, None)])
    case CloseClient(w) =>
      Move(CloseNumber(s, s.workers[w].sock.fd), s.workers[w].sock.conn, Done).(workers := s.workers[w := Resting])
  }

  // ---------------------------------------------------------------- ownership

  /** Slot `j` still owns what it holds: it is not the one just given away. */
  predicate LiveSlot(s: State, j: nat) {
    && j < |s.slots| && s.slots[j].Watched?
    && !((s.main.Stale? || s.main.LeavingStale?) && Index(s) == j)
  }

  /** A holder of `conn` under number `fd` at place `p`: the number is open and is that connection's. */
  predicate Holds(s: State, fd: Fd, conn: nat, p: Place) {
    conn < |s.place| && s.place[conn] == p && fd in s.open && s.open[fd] == Client(conn)
  }

  /** The socket a place holds. */
  function HeldAt(s: State, p: Place): Option<Socket> {
    match p
    case InSlot(j) => if LiveSlot(s, j) then Some(Socket(s.slots[j].fd, s.slots[j].conn)) else None
    case InMain => if s.main.Refusing? then Some(s.main.sock) else None
    case Queued(t) => if s.taken <= t < s.taken + |s.queue| then Some(s.queue[t - s.taken]) else None
    case WithWorker(w) => if w < |s.workers| && s.workers[w].Serving? then Some(s.workers[w].sock) else None
    case Done => None
  }

  /** Whatever a place holds is an open connection recorded at that place. */
  predicate PlaceOk(s: State, p: Place) {
    HeldAt(s, p).Some? ==> Holds(s, HeldAt(s, p).value.fd, HeldAt(s, p).value.conn, p)
  }

  /** Every accepted connection is held where it is recorded, under its only number, or closed exactly once. */
  predicate ConnOk(s: State, c: nat)
    requires c < |s.place|
  {
    if s.place[c] == Done
    then Some(Client(c)) in s.closes && forall fd :: fd in s.open ==> s.open[fd] != Client(c)
    else
      && HeldAt(s, s.place[c]).Some? && HeldAt(s, s.place[c]).value.conn == c
      && Some(Client(c)) !in s.closes
      && forall fd :: fd in s.open && s.open[fd] == Client(c) ==> fd == HeldAt(s, s.place[c]).value.fd
  }

  /** Every close of a client number hit the connection it was meant for, and none was hit twice. */
  predicate ClosesOk(s: State) {
    && (forall k :: 0 <= k < |s.closes| ==> s.closes[k].Some? && s.closes[k].value.Client?
                                            && s.closes[k].value.conn < |s.place|)
    && (forall k, l :: 0 <= k < l < |s.closes| ==> s.closes[k] != s.closes[l])
  }

  predicate FilesOk(s: State) {
    forall w :: 0 <= w < |s.workers| && s.workers[w].Serving? && s.workers[w].file.Some? ==>
      s.workers[w].file.value in s.open && s.open[s.workers[w].file.value] == WorkerFile(w)
  }

  function Bits(s: State): map<Fd, nat> {
    match s.main
    case Selected(_, bits) => bits
    case Refusing(_, bits) => bits
    case Scanning(_, bits) => bits
    case Handing(_, bits) => bits
    case Dropping(_, bits) => bits
    case Stale(_, bits) => bits
    case _ => map[]
  }

  predicate BitIsOpen(s: State, fd: Fd, conn: nat) {
    fd in s.open && s.open[fd] == Client(conn) && conn < |s.place| && s.place[conn].InSlot?
  }

  /** A ready bit that can still be acted on belongs to the connection that is watched under that number now. */
  ghost predicate BitsOk(s: State) {
    && (forall j: nat :: Index(s) <= j && LiveSlot(s, j) && s.slots[j].fd in Bits(s) ==>
          Bits(s)[s.slots[j].fd] == s.slots[j].conn)
    && (s.main.Selected? ==> forall fd :: fd in Bits(s) ==> BitIsOpen(s, fd, Bits(s)[fd]))
    && (s.main.Handing? || s.main.Dropping? ==> AtSlot(s) && s.slots[s.main.i].fd in s.main.bits)
    && (s.main.Stale? || s.main.LeavingStale? ==> AtSlot(s))
    && (s.main.Leaving? || s.main.LeavingStale? ==> forall j :: 0 <= j < Index(s) && j < |s.slots| ==> s.slots[j].Empty?)
    && (s.main.Gone? ==> forall j :: 0 <= j < |s.slots| ==> s.slots[j].Empty?)
    && Index(s) <= |s.slots|
  }

  /** Ownership: places hold open connections, and every connection is at its place or closed. */
  ghost predicate OwnInv(s: State) {
    && (s.listener in s.open && s.open[s.listener] == Listener)
    && (forall p :: PlaceOk(s, p))
    && (forall c: nat :: c < |s.place| ==> ConnOk(s, c))
    && (forall fd :: fd in s.open && s.open[fd].Client? ==> s.open[fd].conn < |s.place|)
    && ClosesOk(s)
  }

  ghost predicate Inv(s: State) {
    OwnInv(s) && FilesOk(s) && BitsOk(s)
  }

  // ---------------------------------------------------------------- the four kinds of step

  /** A place closes what it holds: exactly that connection goes, once and for all. */
  lemma Closing(s: State, t: State, p: Place)
    requires OwnInv(s) && PlaceOk(s, p) && HeldAt(s, p).Some?
    requires var sock := HeldAt(s, p).value;
             && t.open == s.open - {sock.fd} && t.listener == s.listener
             && t.place == s.place[sock.conn := Done]
             && t.closes == s.closes + [if sock.fd in s.open then Some(s.open[sock.fd]) else None]
    requires forall q :: HeldAt(t, q) == if q == p then None else HeldAt(s, q)
    ensures OwnInv(t) && t.closes == s.closes + [Some(Client(HeldAt(s, p).value.conn))]
  {
    var sock := HeldAt(s, p).value;
    assert PlaceOk(s, p) && ConnOk(s, sock.conn);
    forall q ensures PlaceOk(t, q) {
      assert PlaceOk(s, q);
    }
    forall c: nat | c < |t.place| ensures ConnOk(t, c) {
      assert ConnOk(s, c);
      if c == sock.conn {
        assert t.closes[|s.closes|] == Some(Client(c));
      } else if s.place[c] != Done {
        assert PlaceOk(s, s.place[c]);
        assert forall x :: x in t.closes ==> x in s.closes || x == Some(Client(sock.conn));
      } else {
        assert s.closes <= t.closes;
      }
    }
    assert Some(Client(sock.conn)) !in s.closes;
  }

  /** A connection changes hands. */
  lemma HandingOver(s: State, t: State, p: Place, q: Place)
    requires OwnInv(s) && PlaceOk(s, p) && HeldAt(s, p).Some? && HeldAt(s, q) == None && q != Done
    requires t.open == s.open && t.listener == s.listener && t.closes == s.closes
    requires t.place == s.place[HeldAt(s, p).value.conn := q]
    requires forall r :: HeldAt(t, r) == if r == q then HeldAt(s, p) else if r == p then None else HeldAt(s, r)
    ensures OwnInv(t)
  {
    var sock := HeldAt(s, p).value;
    assert PlaceOk(s, p);
    forall r ensures PlaceOk(t, r) {
      assert PlaceOk(s, r);
    }
    forall c: nat | c < |t.place| ensures ConnOk(t, c) {
      assert ConnOk(s, c);
    }
  }

  /** Nobody's hands change; a number that is no client's may be opened or closed. */
  lemma Staying(s: State, t: State)
    requires OwnInv(s)
    requires t.listener == s.listener && t.closes == s.closes && t.place == s.place
    requires forall r :: HeldAt(t, r) == HeldAt(s, r)
    requires forall fd :: fd in s.open && !s.open[fd].WorkerFile? ==> fd in t.open && t.open[fd] == s.open[fd]
    requires forall fd :: fd in t.open && !t.open[fd].WorkerFile? ==> fd in s.open && t.open[fd] == s.open[fd]
    ensures OwnInv(t)
  {
    forall r ensures PlaceOk(t, r) {
      assert PlaceOk(s, r);
    }
    forall c: nat | c < |t.place| ensures ConnOk(t, c) {
      assert ConnOk(s, c);
    }
  }

  /** A fresh number is accepted into a place that held nothing. */
  lemma Accepting(s: State, t: State, p: Place, fd: Fd)
    requires OwnInv(s) && fd !in s.open && p != Done && HeldAt(s, p) == None
    requires t.open == s.open[fd := Client(|s.place|)] && t.listener == s.listener && t.closes == s.closes
    requires t.place == s.place + [p]
    requires forall r :: HeldAt(t, r) == if r == p then Some(Socket(fd, |s.place|)) else HeldAt(s, r)
    ensures OwnInv(t)
  {
    forall r ensures PlaceOk(t, r) {
      assert PlaceOk(s, r);
    }
    forall c: nat | c < |t.place| ensures ConnOk(t, c) {
      if c < |s.place| {
        assert ConnOk(s, c);
      }
    }
  }

  /** The place whose client number an action closes, if it closes one. */
  function ClosedPlace(s: State, a: Action): Option<Place>
    requires Enabled(s, a)
  {
    match a
    case CloseRefused => Some(InMain)
    case SubmitFails => Some(InSlot(Index(s)))
    case CloseSlot => Some(InSlot(Index(s)))
    case LeaveSlot => if s.slots[Index(s)].Watched? then Some(InSlot(Index(s))) else None
    case CloseClient(w) => Some(WithWorker(w))
    case _ => None
  }

  lemma WorkerClosesPlaces(s: State, w: nat)
    requires Enabled(s, CloseClient(w))
    ensures forall q :: HeldAt(Do(s, CloseClient(w)), q) == if q == WithWorker(w) then None else HeldAt(s, q)
  {
  }

  lemma LoopClosesPlaces(s: State, a: Action)
    requires BitsOk(s) && Enabled(s, a) && ClosedPlace(s, a).Some? && !a.CloseClient?
    ensures var p := ClosedPlace(s, a).value;
            HeldAt(s, p).Some? && forall q :: HeldAt(Do(s, a), q) == if q == p then None else HeldAt(s, q)
  {
  }

  lemma ClosingPlaces(s: State, a: Action)
    requires BitsOk(s) && Enabled(s, a) && ClosedPlace(s, a).Some?
    ensures var p := ClosedPlace(s, a).value;
            HeldAt(s, p).Some? && forall q :: HeldAt(Do(s, a), q) == if q == p then None else HeldAt(s, q)
  {
    if a.CloseClient? {
      WorkerClosesPlaces(s, a.w);
    } else {
      LoopClosesPlaces(s, a);
    }
  }

  lemma ClosingStep(s: State, a: Action)
    requires Inv(s) && Enabled(s, a) && ClosedPlace(s, a).Some?
    ensures OwnInv(Do(s, a))
    ensures var p := ClosedPlace(s, a).value;
            HeldAt(s, p).Some? && Do(s, a).closes == s.closes + [Some(Client(HeldAt(s, p).value.conn))]
  {
    var p := ClosedPlace(s, a).value;
    ClosingPlaces(s, a);
    assert PlaceOk(s, p);
    Closing(s, Do(s, a), p);
  }

  lemma AcceptStep(s: State, a: Action)
    requires Inv(s) && Enabled(s, a) && a.Accept?
    ensures OwnInv(Do(s, a))
  {
    var j := FirstEmpty(s.slots);
    var p := if j < |s.slots| then InSlot(j) else InMain;
    Accepting(s, Do(s, a), p, a.fd);
  }

  lemma HandOverStep(s: State, a: Action)
    requires Inv(s) && Enabled(s, a) && (a.SubmitSlot? || a.Take?)
    ensures OwnInv(Do(s, a))
  {
    if a.SubmitSlot? {
      var p := InSlot(s.main.i);
      assert PlaceOk(s, p);
      HandingOver(s, Do(s, a), p, Queued(s.taken + |s.queue|));
    } else {
      var p := Queued(s.taken);
      assert PlaceOk(s, p);
      HandingOver(s, Do(s, a), p, WithWorker(a.w));
    }
  }

  lemma StayingPlaces(s: State, a: Action)
    requires BitsOk(s) && Enabled(s, a) && ClosedPlace(s, a) == None && !a.Accept? && !a.SubmitSlot? && !a.Take?
    ensures forall r :: HeldAt(Do(s, a), r) == HeldAt(s, r)
  {
  }

  lemma OwnStep(s: State, a: Action)
    requires Inv(s) && Enabled(s, a)
    ensures OwnInv(Do(s, a))
  {
    if ClosedPlace(s, a).Some? {
      ClosingStep(s, a);
    } else if a.Accept? {
      AcceptStep(s, a);
    } else if a.SubmitSlot? || a.Take? {
      HandOverStep(s, a);
    } else {
      StayingPlaces(s, a);
      Staying(s, Do(s, a));
    }
  }

  /** Closing a client, or accepting one, never touches a number under which a worker has a file open. */
  lemma FilesBesideClose(s: State, a: Action)
    requires Inv(s) && Enabled(s, a) && ClosedPlace(s, a).Some?
    ensures FilesOk(Do(s, a))
  {
    ClosingPlaces(s, a);
    assert PlaceOk(s, ClosedPlace(s, a).value);
  }

  lemma FilesStep(s: State, a: Action)
    requires FilesOk(s) && Enabled(s, a) && ClosedPlace(s, a) == None
    ensures FilesOk(Do(s, a))
  {
  }

  /** Each ready bit stands for a slot that is watched under that number. */
  lemma {:induction false} BitsForSlots(slots: seq<Slot>, ready: set<Fd>, fd: Fd)
    requires fd in BitsFor(slots, ready)
    ensures fd in ready && exists j :: 0 <= j < |slots| && slots[j] == Watched(fd, BitsFor(slots, ready)[fd])
  {
    var n := |slots| - 1;
    if slots[n].Watched? && slots[n].fd == fd && fd in ready {
      assert slots[n] == Watched(fd, BitsFor(slots, ready)[fd]);
    } else {
      BitsForSlots(slots[..n], ready, fd);
      var j :| 0 <= j < n && slots[..n][j] == Watched(fd, BitsFor(slots[..n], ready)[fd]);
      assert slots[j] == Watched(fd, BitsFor(slots, ready)[fd]);
    }
  }

  lemma SelectBits(s: State, ready: set<Fd>)
    requires Inv(s) && Enabled(s, Select(ready))
    ensures BitsOk(Do(s, Select(ready)))
  {
    var t := Do(s, Select(ready));
    forall fd | fd in Bits(t) ensures BitIsOpen(t, fd, Bits(t)[fd]) {
      BitsForSlots(s.slots, ready, fd);
      var j :| 0 <= j < |s.slots| && s.slots[j] == Watched(fd, Bits(t)[fd]);
      assert PlaceOk(s, InSlot(j));
    }
    forall j: nat | LiveSlot(t, j) && t.slots[j].fd in Bits(t) ensures Bits(t)[t.slots[j].fd] == t.slots[j].conn {
      assert PlaceOk(s, InSlot(j));
      assert BitIsOpen(t, t.slots[j].fd, Bits(t)[t.slots[j].fd]);
    }
  }

  /** No watched number can close between select and accept, so the accepted number has no ready bit. */
  lemma AcceptedHasNoBit(s: State, fd: Fd)
    requires Inv(s) && Enabled(s, Accept(fd))
    ensures fd !in Bits(s)
  {
    var alreadyOpen := fd in Bits(s) && BitIsOpen(s, fd, Bits(s)[fd]);
  }

  predicate ByWorker(a: Action) {
    a.Take? || a.OpenFile? || a.CloseFile? || a.CloseClient?
  }

  /** A watched connection stays open, under its number, whatever a worker does. */
  lemma BitSurvives(s: State, a: Action, fd: Fd)
    requires Inv(s) && Enabled(s, a) && (ByWorker(a) || a.Interrupt?)
    requires fd in Bits(s) && BitIsOpen(s, fd, Bits(s)[fd])
    ensures BitIsOpen(Do(s, a), fd, Bits(s)[fd])
  {
    if a.CloseClient? {
      assert PlaceOk(s, WithWorker(a.w));
    } else if a.Take? {
      assert PlaceOk(s, Queued(s.taken));
    }
  }

  /** What the workers do leaves the select loop's own slots and ready bits alone. */
  lemma WorkerBits(s: State, a: Action)
    requires Inv(s) && Enabled(s, a) && (ByWorker(a) || a.Interrupt?)
    ensures BitsOk(Do(s, a))
  {
    var t := Do(s, a);
    assert t.main == s.main && t.slots == s.slots;
    if s.main.Selected? {
      forall fd | fd in Bits(t) ensures BitIsOpen(t, fd, Bits(t)[fd]) {
        BitSurvives(s, a, fd);
      }
    }
    assert forall j: nat :: LiveSlot(t, j) == LiveSlot(s, j);
  }

  lemma AcceptBits(s: State, a: Action)
    requires Inv(s) && Enabled(s, a) && a.Accept?
    ensures BitsOk(Do(s, a))
  {
    AcceptedHasNoBit(s, a.fd);
    var t := Do(s, a);
    assert forall j: nat :: LiveSlot(t, j) ==> LiveSlot(s, j) || t.slots[j].fd == a.fd;
  }

  /** The steps that clear slots or leave the loop. */
  predicate Sweeps(a: Action) {
    a.ClearSlot? || a.LeaveSlot? || a.Leave? || a.Stop? || a.ScanDone? || a.SelectFails?
  }

  lemma ClearBits(s: State)
    requires Inv(s) && Enabled(s, ClearSlot)
    ensures BitsOk(Do(s, ClearSlot))
  {
    var t := Do(s, ClearSlot);
    assert forall j: nat :: LiveSlot(t, j) ==> LiveSlot(s, j);
  }

  lemma SweepBits(s: State, a: Action)
    requires Inv(s) && Enabled(s, a) && Sweeps(a)
    ensures BitsOk(Do(s, a))
  {
    if a.ClearSlot? {
      ClearBits(s);
    } else {
      assert forall j: nat :: LiveSlot(Do(s, a), j) ==> LiveSlot(s, j);
    }
  }

  lemma MainBits(s: State, a: Action)
    requires Inv(s) && Enabled(s, a) && !a.Select? && !a.Accept? && !ByWorker(a) && !a.Interrupt? && !Sweeps(a)
    ensures BitsOk(Do(s, a))
  {
    var t := Do(s, a);
    assert t.slots == s.slots && Bits(t) == Bits(s) && Index(s) <= Index(t);
    assert forall j: nat :: LiveSlot(t, j) ==> LiveSlot(s, j);
  }

  lemma InvStep(s: State, a: Action)
    requires Inv(s) && Enabled(s, a)
    ensures Inv(Do(s, a))
  {
    OwnStep(s, a);
    if ClosedPlace(s, a).Some? {
      FilesBesideClose(s, a);
    } else {
      FilesStep(s, a);
    }
    if a.Select? {
      SelectBits(s, a.ready);
    } else if ByWorker(a) || a.Interrupt? {
      WorkerBits(s, a);
    } else if a.Accept? {
      AcceptBits(s, a);
    } else if Sweeps(a) {
      SweepBits(s, a);
    } else {
      MainBits(s, a);
    }
  }

  // ---------------------------------------------------------------- whole runs

  /** The server as it enters the select loop. */
  predicate Init(s: State) {
    && s.open == map[s.listener := Listener] && s.main == Top
    && (forall j :: 0 <= j < |s.slots| ==> s.slots[j] == Empty)
    && s.queue == [] && s.taken == 0 && s.handed == [] && s.place == [] && s.closes == []
    && (forall w :: 0 <= w < |s.workers| ==> s.workers[w] == Resting)
  }

  predicate Runs(s: State, acts: seq<Action>, t: State)
    decreases |acts|
  {
    if acts == [] then s == t
    else Enabled(s, acts[0]) && Runs(Do(s, acts[0]), acts[1..], t)
  }

  lemma {:induction false} RunKeepsInv(s: State, acts: seq<Action>, t: State)
    requires Inv(s) && Runs(s, acts, t)
    ensures Inv(t)
    decreases |acts|
  {
    if acts != [] {
      InvStep(s, acts[0]);
      RunKeepsInv(Do(s, acts[0]), acts[1..], t);
    }
  }

  lemma Reachable(s: State, acts: seq<Action>, t: State)
    requires Init(s) && Runs(s, acts, t)
    ensures Inv(t)
  {
    RunKeepsInv(s, acts, t);
  }

  // ---------------------------------------------------------------- what is given to the pool

  /**
    The pool gets each connection at most once, in this order, and only from a slot: the first `taken` of them have
    gone to workers, the others are the queue.
  */
  ghost predicate HandedOk(s: State) {
    && |s.handed| == s.taken + |s.queue|
    && (forall k :: 0 <= k < |s.queue| ==> s.queue[k].conn == s.handed[s.taken + k])
    && (forall w :: 0 <= w < |s.workers| && s.workers[w].Serving? ==> s.workers[w].sock.conn in s.handed[..s.taken])
    && (forall c :: c in s.handed ==> c < |s.place| && !s.place[c].InSlot? && !s.place[c].InMain?)
    && (forall k, l :: 0 <= k < l < |s.handed| ==> s.handed[k] != s.handed[l])
  }

  lemma HandedSubmit(s: State)
    requires Inv(s) && HandedOk(s) && Enabled(s, SubmitSlot)
    ensures HandedOk(Do(s, SubmitSlot))
  {
    var slot := s.slots[s.main.i];
    assert LiveSlot(s, s.main.i) && PlaceOk(s, InSlot(s.main.i));
    assert (s.handed + [slot.conn])[..s.taken] == s.handed[..s.taken];
  }

  lemma HandedTake(s: State, w: nat)
    requires Inv(s) && HandedOk(s) && Enabled(s, Take(w))
    ensures HandedOk(Do(s, Take(w)))
  {
    assert PlaceOk(s, Queued(s.taken));
    var t := Do(s, Take(w));
    assert s.handed[..s.taken + 1] == s.handed[..s.taken] + [s.handed[s.taken]];
    assert t.workers[w].sock.conn == s.handed[s.taken];
    forall v | 0 <= v < |t.workers| && t.workers[v].Serving? ensures t.workers[v].sock.conn in t.handed[..t.taken] {
      if v != w {
        assert t.workers[v] == s.workers[v];
      }
    }
  }

  lemma HandedStep(s: State, a: Action)
    requires Inv(s) && HandedOk(s) && Enabled(s, a)
    ensures HandedOk(Do(s, a))
  {
    if a.SubmitSlot? {
      HandedSubmit(s);
    } else if a.Take? {
      HandedTake(s, a.w);
    } else {
      HandedElsewhere(s, a);
    }
  }

  predicate GivesOn(a: Action) {
    a.SubmitSlot? || a.Take?
  }

  /** Other steps leave a connection where it is, or close it. */
  lemma PlacesElsewhere(s: State, a: Action, c: nat)
    requires Enabled(s, a) && !GivesOn(a) && c < |s.place|
    ensures var t := Do(s, a); c < |t.place| && (t.place[c] == s.place[c] || t.place[c] == Done)
  {
  }

  /** They leave the queue alone, and give no worker a new socket. */
  lemma PoolElsewhere(s: State, a: Action)
    requires Enabled(s, a) && !GivesOn(a)
    ensures var t := Do(s, a);
            && t.handed == s.handed && t.queue == s.queue && t.taken == s.taken && |t.workers| == |s.workers|
            && forall w :: 0 <= w < |t.workers| && t.workers[w].Serving? ==>
                 s.workers[w].Serving? && t.workers[w].sock == s.workers[w].sock
  {
  }

  lemma HandedElsewhere(s: State, a: Action)
    requires HandedOk(s) && Enabled(s, a) && !GivesOn(a)
    ensures HandedOk(Do(s, a))
  {
    var t := Do(s, a);
    PoolElsewhere(s, a);
    forall c | c in t.handed ensures c < |t.place| && !t.place[c].InSlot? && !t.place[c].InMain? {
      PlacesElsewhere(s, a, c);
    }
  }

  lemma {:induction false} RunKeepsHanded(s: State, acts: seq<Action>, t: State)
    requires Inv(s) && HandedOk(s) && Runs(s, acts, t)
    ensures HandedOk(t)
    decreases |acts|
  {
    if acts != [] {
      HandedStep(s, acts[0]);
      InvStep(s, acts[0]);
      RunKeepsHanded(Do(s, acts[0]), acts[1..], t);
    }
  }

  /** In every reachable state a connection given to the pool is in its queue, with a worker, or closed; no slot has it. */
  lemma PoolOwnsHanded(start: State, acts: seq<Action>, s: State, k: nat)
    requires Init(start) && Runs(start, acts, s) && k < |s.handed|
    ensures var c := s.handed[k];
            && c < |s.place| && (s.place[c].Queued? || s.place[c].WithWorker? || s.place[c].Done?)
            && (k >= s.taken ==> s.place[c] == Queued(k))
            && forall j: nat :: LiveSlot(s, j) ==> s.slots[j].conn != c
  {
    Reachable(start, acts, s);
    RunKeepsHanded(start, acts, s);
    var c := s.handed[k];
    assert c in s.handed;
    if k >= s.taken {
      assert PlaceOk(s, Queued(k));
    }
    forall j: nat | LiveSlot(s, j) ensures s.slots[j].conn != c {
      assert PlaceOk(s, InSlot(j));
    }
  }

  /** In every reachable state two holders never share a connection or a number, and no holder's number is a worker's file. */
  lemma OneOwner(start: State, acts: seq<Action>, s: State, p: Place, q: Place)
    requires Init(start) && Runs(start, acts, s) && p != q && HeldAt(s, p).Some?
    ensures HeldAt(s, q).Some? ==>
              HeldAt(s, q).value.conn != HeldAt(s, p).value.conn && HeldAt(s, q).value.fd != HeldAt(s, p).value.fd
    ensures forall w :: 0 <= w < |s.workers| && s.workers[w].Serving? ==>
              s.workers[w].file != Some(HeldAt(s, p).value.fd)
  {
    Reachable(start, acts, s);
    assert PlaceOk(s, p) && PlaceOk(s, q);
  }

  /** In every reachable state the number the kernel gives an accepted socket has no ready bit in this iteration. */
  lemma AcceptedNotReady(start: State, acts: seq<Action>, s: State, fd: Fd)
    requires Init(start) && Runs(start, acts, s) && Enabled(s, Accept(fd))
    ensures fd !in Bits(s) && forall j: nat :: LiveSlot(s, j) ==> s.slots[j].fd != fd
  {
    Reachable(start, acts, s);
    AcceptedHasNoBit(s, fd);
    forall j: nat | LiveSlot(s, j) ensures s.slots[j].fd != fd {
      assert PlaceOk(s, InSlot(j));
    }
  }

  /** A header is read only from a connection that select reported ready in this very iteration. */
  lemma ReadOnlyIfReady(start: State, acts: seq<Action>, s: State, ok: bool)
    requires Init(start) && Runs(start, acts, s) && Enabled(s, ReadHeader(ok))
    ensures var slot := s.slots[s.main.i];
            && slot.fd in s.main.bits && s.main.bits[slot.fd] == slot.conn
            && Holds(s, slot.fd, slot.conn, InSlot(s.main.i))
  {
    Reachable(start, acts, s);
    assert LiveSlot(s, s.main.i) && PlaceOk(s, InSlot(s.main.i));
  }

  /** At server exit the connections closed are exactly the connections accepted, each once. */
  lemma ExitClosesAll(start: State, acts: seq<Action>, s: State)
    requires Init(start) && Runs(start, acts, s)
    requires s.main.Gone? && s.queue == [] && forall w :: 0 <= w < |s.workers| ==> s.workers[w].Resting?
    ensures forall c: nat :: c < |s.place| <==> Some(Client(c)) in s.closes
    ensures forall k, l :: 0 <= k < l < |s.closes| ==> s.closes[k] != s.closes[l]
    ensures forall fd :: fd in s.open ==> !s.open[fd].Client?
  {
    Reachable(start, acts, s);
    forall c: nat | c < |s.place| ensures s.place[c] == Done {
      assert ConnOk(s, c);
    }
    forall c: nat | c < |s.place| ensures Some(Client(c)) in s.closes {
      assert ConnOk(s, c);
    }
    forall fd | fd in s.open ensures !s.open[fd].Client? {
      var known := s.open[fd].Client? && s.open[fd].conn < |s.place| && ConnOk(s, s.open[fd].conn);
    }
  }
}
