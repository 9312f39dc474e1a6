/** Accounting, mutual exclusion and deadlock freedom of the lock table, over every run of the server. */
module LockSafety {
  import opened Bytes
  import opened Payloads
  import opened LockRules
  import opened Server

  /** The workers that hold a lock, as read off their program counters. */
  function Holders(ws: seq<Worker>, h: Hold): set<nat> {
    set i | 0 <= i < |ws| && Held(ws[i]) == Some(h)
  }

  /** The counters of a name are exactly its holders. */
  predicate Accounted(ws: seq<Worker>, locks: map<Name, Entry>, n: Name) {
    && EntryAt(locks, n).writers == |Holders(ws, Hold(n, Write))|
    && EntryAt(locks, n).readers == |Holders(ws, Hold(n, Read))|
    && Consistent(EntryAt(locks, n))
  }

  predicate SameName(g: Option<Hold>, h: Option<Hold>) {
    g.Some? && h.Some? && g.value.name == h.value.name
  }

  /** Two different holders of one name are both readers. */
  predicate Exclusive(ws: seq<Worker>) {
    forall i, j | 0 <= i < |ws| && 0 <= j < |ws| && i != j && SameName(Held(ws[i]), Held(ws[j])) ::
      Held(ws[i]).value.kind == Read
  }

  /** Nobody sleeps for a lock that is free for it. */
  predicate SleepersBlocked(ws: seq<Worker>, locks: map<Name, Entry>) {
    forall i :: 0 <= i < |ws| && Awaited(ws[i]).Some? ==>
      Conflict(EntryAt(locks, Awaited(ws[i]).value.name), Awaited(ws[i]).value.kind)
  }

  ghost predicate LockInv(ws: seq<Worker>, locks: map<Name, Entry>) {
    && (forall n :: Accounted(ws, locks, n))
    && Exclusive(ws)
    && SleepersBlocked(ws, locks)
  }

  /** A worker that neither takes nor drops a lock, and does not fall asleep for one. */
  lemma Quiet(ws: seq<Worker>, locks: map<Name, Entry>, w: nat, x: Worker)
    requires LockInv(ws, locks) && w < |ws| && Held(ws[w]) == Held(x) && Awaited(x) == None
    ensures LockInv(ws[w := x], locks)
  {
    var ws' := ws[w := x];
    forall n ensures Accounted(ws', locks, n) {
      assert Accounted(ws, locks, n);
      assert Holders(ws', Hold(n, Write)) == Holders(ws, Hold(n, Write));
      assert Holders(ws', Hold(n, Read)) == Holders(ws, Hold(n, Read));
    }
  }

  /** Wakeups change no holder. */
  lemma SameHolders(ws: seq<Worker>, ws': seq<Worker>, locks: map<Name, Entry>)
    requires LockInv(ws, locks) && |ws| == |ws'|
    requires forall i :: 0 <= i < |ws| ==> Held(ws'[i]) == Held(ws[i]) && Awaited(ws'[i]) in {None, Awaited(ws[i])}
    ensures LockInv(ws', locks)
  {
    forall n ensures Accounted(ws', locks, n) {
      assert Accounted(ws, locks, n);
      assert Holders(ws', Hold(n, Write)) == Holders(ws, Hold(n, Write));
      assert Holders(ws', Hold(n, Read)) == Holders(ws, Hold(n, Read));
    }
    forall i | 0 <= i < |ws'| && Awaited(ws'[i]).Some?
      ensures Conflict(EntryAt(locks, Awaited(ws'[i]).value.name), Awaited(ws'[i]).value.kind)
    {
      assert Awaited(ws[i]) == Awaited(ws'[i]);
    }
  }

  /** A waiter that finds a conflict goes to sleep. */
  lemma Sleep(ws: seq<Worker>, locks: map<Name, Entry>, w: nat, x: Worker)
    requires LockInv(ws, locks) && w < |ws| && Held(ws[w]) == None && Held(x) == None && Awaited(x).Some?
    requires Conflict(EntryAt(locks, Awaited(x).value.name), Awaited(x).value.kind)
    ensures LockInv(ws[w := x], locks[Awaited(x).value.name := EntryAt(locks, Awaited(x).value.name)])
  {
    var n := Awaited(x).value.name;
    var locks' := locks[n := EntryAt(locks, n)];
    assert forall m :: EntryAt(locks', m) == EntryAt(locks, m);
    var ws' := ws[w := x];
    forall n ensures Accounted(ws', locks', n) {
      assert Accounted(ws, locks, n);
      assert Holders(ws', Hold(n, Write)) == Holders(ws, Hold(n, Write));
      assert Holders(ws', Hold(n, Read)) == Holders(ws, Hold(n, Read));
    }
  }

  lemma NoHolders(ws: seq<Worker>, locks: map<Name, Entry>, h: Hold, i: nat)
    requires Accounted(ws, locks, h.name) && i < |ws| && Held(ws[i]) == Some(h)
    ensures h.kind == Write ==> EntryAt(locks, h.name).writers == 1
    ensures h.kind == Read ==> EntryAt(locks, h.name).readers > 0
  {
    assert i in Holders(ws, h);
    assert Holders(ws, h) != {};
  }

  /** A lock is granted only when that keeps writers alone. */
  lemma Granting(ws: seq<Worker>, locks: map<Name, Entry>, w: nat, x: Worker)
    requires LockInv(ws, locks) && w < |ws| && Held(ws[w]) == None && Held(x).Some? && Awaited(x) == None
    requires var h := Held(x).value; !Conflict(EntryAt(locks, h.name), h.kind)
    ensures var h := Held(x).value;
            LockInv(ws[w := x], locks[h.name := Grant(EntryAt(locks, h.name), h.kind)])
  {
    var h := Held(x).value;
    var ws', locks' := ws[w := x], locks[h.name := Grant(EntryAt(locks, h.name), h.kind)];
    assert Accounted(ws, locks, h.name);
    forall i | 0 <= i < |ws| && SameName(Held(ws[i]), Some(h))
      ensures Held(ws[i]).value.kind == Read && h.kind == Read
    {
      NoHolders(ws, locks, Held(ws[i]).value, i);
    }
    forall n ensures Accounted(ws', locks', n) {
      assert Accounted(ws, locks, n);
      OneMore(ws, w, x, Hold(n, Write));
      OneMore(ws, w, x, Hold(n, Read));
    }
  }

  lemma OneMore(ws: seq<Worker>, w: nat, x: Worker, h: Hold)
    requires w < |ws| && Held(ws[w]) == None
    ensures |Holders(ws[w := x], h)| == |Holders(ws, h)| + if Held(x) == Some(h) then 1 else 0
  {
    if Held(x) == Some(h) {
      assert Holders(ws[w := x], h) == Holders(ws, h) + {w};
    } else {
      assert Holders(ws[w := x], h) == Holders(ws, h);
    }
  }

  lemma OneLess(ws: seq<Worker>, w: nat, ws': seq<Worker>, h: Hold)
    requires w < |ws| == |ws'| && Held(ws'[w]) == None
    requires forall i :: 0 <= i < |ws| && i != w ==> Held(ws'[i]) == Held(ws[i])
    ensures |Holders(ws', h)| == |Holders(ws, h)| - if Held(ws[w]) == Some(h) then 1 else 0
  {
    if Held(ws[w]) == Some(h) {
      assert w in Holders(ws, h);
      assert Holders(ws', h) == Holders(ws, h) - {w};
    } else {
      assert Holders(ws', h) == Holders(ws, h);
    }
  }

  /** A lock is dropped, and every sleeper is woken. */
  lemma Dropping(ws: seq<Worker>, locks: map<Name, Entry>, w: nat, x: Worker)
    requires LockInv(ws, locks) && w < |ws| && Held(ws[w]).Some? && Held(x) == None && Awaited(x) == None
    ensures var h := Held(ws[w]).value;
            LockInv(WakeLockers(ws)[w := x], locks[h.name := Drop(EntryAt(locks, h.name), h.kind)])
  {
    var h := Held(ws[w]).value;
    var ws', locks' := WakeLockers(ws)[w := x], locks[h.name := Drop(EntryAt(locks, h.name), h.kind)];
    assert forall i :: 0 <= i < |ws| && i != w ==> Held(ws'[i]) == Held(ws[i]) && Awaited(ws'[i]) == None;
    assert Accounted(ws, locks, h.name);
    NoHolders(ws, locks, h, w);
    forall n ensures Accounted(ws', locks', n) {
      assert Accounted(ws, locks, n);
      OneLess(ws, w, ws', Hold(n, Write));
      OneLess(ws, w, ws', Hold(n, Read));
    }
    forall i, j | 0 <= i < |ws'| && 0 <= j < |ws'| && i != j && SameName(Held(ws'[i]), Held(ws'[j]))
      ensures Held(ws'[i]).value.kind == Read
    {
      assert SameName(Held(ws[i]), Held(ws[j]));
    }
  }

  /** Every step of every worker keeps the accounting. */
  lemma LockInvStep(s: State, a: Action)
    requires LockInv(s.workers, s.locks) && Enabled(s, a)
    ensures LockInv(Do(s, a).workers, Do(s, a).locks)
  {
    match a
    case Submit(job, wake) => SameHolders(s.workers, Do(s, a).workers, s.locks);
    case Shutdown => SameHolders(s.workers, Do(s, a).workers, s.locks);
    case SpuriousPool(w) => Quiet(s.workers, s.locks, w, PoolWoken);
    case SpuriousLock(w) => Quiet(s.workers, s.locks, w, s.workers[w].(stage := Woken));
    case Step(w, c) =>
      var x := s.workers[w];
      if x.Handling? {
        LockInvHandler(s, w, c);
      } else {
        Quiet(s.workers, s.locks, w, Do(s, a).workers[w]);
      }
  }

  lemma AcquireKeepsLocks(s: State, w: nat, c: Choice)
    requires LockInv(s.workers, s.locks) && Enabled(s, Step(w, c)) && s.workers[w].Handling? && c.Acquire?
    ensures var t := DoStep(s, w, c); LockInv(t.workers, t.locks)
  {
    var x := DoStep(s, w, c).workers[w];
    if x.stage.Asleep? {
      Sleep(s.workers, s.locks, w, x);
    } else {
      Granting(s.workers, s.locks, w, x);
    }
  }

  lemma ReleaseKeepsLocks(s: State, w: nat, c: Choice)
    requires LockInv(s.workers, s.locks) && Enabled(s, Step(w, c)) && s.workers[w].Handling? && c.Release?
    ensures var t := DoStep(s, w, c); LockInv(t.workers, t.locks)
  {
    Dropping(s.workers, s.locks, w, DoStep(s, w, c).workers[w]);
  }

  /** The other steps of a handler leave the locks and the other workers alone. */
  lemma LocksUntouched(s: State, w: nat, c: Choice)
    requires Enabled(s, Step(w, c)) && s.workers[w].Handling? && !c.Acquire? && !c.Release?
    ensures var t := DoStep(s, w, c); t.workers == s.workers[w := t.workers[w]] && t.locks == s.locks
  {
  }

  /** A file call happens inside the critical section, and stays there. */
  lemma CallStaysInside(fs: Fs, req: Request, stage: Stage, call: FileCall)
    requires CallEnabled(fs, req, stage, call)
    ensures InSection(stage) && InSection(DoCall(fs, req, stage, call).1)
  {
  }

  lemma HoldUntouched(s: State, w: nat, c: Choice)
    requires Enabled(s, Step(w, c)) && s.workers[w].Handling? && !c.Acquire? && !c.Release?
    ensures var x := DoStep(s, w, c).workers[w]; Held(x) == Held(s.workers[w]) && Awaited(x) == None
  {
    if c.Call? {
      CallStaysInside(s.fs, s.workers[w].req, s.workers[w].stage, c.call);
    }
  }

  lemma LockInvHandler(s: State, w: nat, c: Choice)
    requires LockInv(s.workers, s.locks) && Enabled(s, Step(w, c)) && s.workers[w].Handling?
    ensures var t := DoStep(s, w, c); LockInv(t.workers, t.locks)
  {
    if c.Acquire? {
      AcquireKeepsLocks(s, w, c);
    } else if c.Release? {
      ReleaseKeepsLocks(s, w, c);
    } else {
      LocksUntouched(s, w, c);
      HoldUntouched(s, w, c);
      Quiet(s.workers, s.locks, w, DoStep(s, w, c).workers[w]);
    }
  }
}
