/** The lock table itself: a linked list that only ever grows at its head (src/fileops.c). */
module LockTable {
  import opened Bytes
  import opened Payloads
  import opened LockRules

  class LockEntry {
    const name: Name
    const next: LockEntry?
    var writers: nat
    var readers: nat

    constructor (name: Name, next: LockEntry?)
      ensures this.name == name && this.next == next && writers == 0 && readers == 0
    {
      this.name, this.next := name, next;
      writers, readers := 0, 0;
    }

    function Value(): Entry
      reads this
    {
      Entry(writers, readers)
    }
  }

  /** What `strncpy` into the entry's 256-byte buffer keeps whole: the names the handlers pass. */
  predicate Storable(name: Name) {
    |name| <= MAX_NAME_LEN && 0 !in name
  }

  class Table {
    var head: LockEntry?
    ghost var spine: seq<LockEntry>
    ghost var repr: set<LockEntry>
    /** The map from names to counters that the list represents. */
    ghost var model: map<Name, Entry>

    /** The list from `head` is `spine`, names are distinct, and the counters are those of `model`. */
    ghost predicate Valid()
      reads this, repr, spine
    {
      && repr == (set e | e in spine)
      && head == (if spine == [] then null else spine[0])
      && Linked(spine)
      && Distinct(spine)
      && (forall e :: e in spine ==> e.name in model && model[e.name] == e.Value() && Consistent(e.Value()))
      && (forall n :: n in model ==> Named(spine, n))
    }

    static ghost predicate Linked(spine: seq<LockEntry>) {
      forall i :: 0 <= i < |spine| ==> spine[i].next == if i + 1 < |spine| then spine[i + 1] else null
    }

    static ghost predicate Distinct(spine: seq<LockEntry>) {
      forall i, j :: 0 <= i < j < |spine| ==> spine[i].name != spine[j].name
    }

    static ghost predicate Named(spine: seq<LockEntry>, n: Name) {
      exists e :: e in spine && e.name == n
    }

    /** Every entry of `before` is still there, in the same order, behind the entries added since. */
    static predicate Suffix(before: seq<LockEntry>, after: seq<LockEntry>) {
      |before| <= |after| && after[|after| - |before|..] == before
    }

    constructor ()
      ensures Valid() && spine == [] && model == map[]
    {
      head, spine, repr, model := null, [], {}, map[];
    }

    /** The search loop of `get_entry_locked`. */
    method Find(name: Name) returns (e: LockEntry?)
      requires Valid()
      ensures e == null <==> name !in model
      ensures e != null ==> e in spine && e.name == name
    {
      e := head;
      ghost var i := 0;
      while e != null
        invariant 0 <= i <= |spine|
        invariant e == if i < |spine| then spine[i] else null
        invariant forall j :: 0 <= j < i ==> spine[j].name != name
        decreases |spine| - i
      {
        if e.name == name {
          assert spine[i] in spine;
          return;
        }
        assert e == spine[i] && spine[i].next == if i + 1 < |spine| then spine[i + 1] else null;
        e := e.next;
        i := i + 1;
      }
    }

    /** The insertion at the head: nothing already in the list moves or changes. */
    method Prepend(name: Name) returns (e: LockEntry)
      requires Valid() && name !in model
      modifies this
      ensures Valid() && fresh(e) && e.name == name
      ensures spine == [e] + old(spine) && model == old(model)[name := FREE]
    {
      assert forall x :: x in spine ==> x.name != name;
      e := new LockEntry(name, head);
      PrependShape(e, spine);
      head := e;
      spine, repr := [e] + spine, repr + {e};
      model := model[name := FREE];
      assert e in spine;
      assert forall x :: x in spine ==> x == e || x in old(spine);
      PrependNames(e, old(spine), old(model));
    }

    static lemma PrependShape(e: LockEntry, spine: seq<LockEntry>)
      requires Linked(spine) && Distinct(spine) && e.next == (if spine == [] then null else spine[0])
      requires forall x :: x in spine ==> x.name != e.name
      ensures Linked([e] + spine) && Distinct([e] + spine)
    {
      var longer := [e] + spine;
      assert forall i :: 0 < i < |longer| ==> longer[i] == spine[i - 1] && longer[i] in spine;
    }

    static lemma PrependNames(e: LockEntry, spine: seq<LockEntry>, model: map<Name, Entry>)
      requires forall n :: n in model ==> Named(spine, n)
      ensures forall n :: n in model[e.name := FREE] ==> Named([e] + spine, n)
    {
      assert e in [e] + spine;
      forall n | n in model ensures Named([e] + spine, n) {
        var x :| x in spine && x.name == n;
        assert x in [e] + spine;
      }
    }

    /** `get_entry_locked`: the unique entry of a name, created free at the head when there was none. */
    method GetEntry(name: Name) returns (e: LockEntry)
      requires Valid() && Storable(name)
      modifies this
      ensures Valid() && e in spine && e.name == name
      ensures name in old(model) ==> spine == old(spine)
      ensures name !in old(model) ==> fresh(e) && |spine| == |old(spine)| + 1 && spine[0] == e
      ensures model == old(model)[name := EntryAt(old(model), name)]
      ensures fresh(repr - old(repr)) && old(repr) <= repr
      ensures Suffix(old(spine), spine)
    {
      var found := Find(name);
      if found != null {
        e := found;
      } else {
        e := Prepend(name);
      }
    }

    /** Stores new counters into one entry; no other name sees it. */
    method SetCounters(e: LockEntry, v: Entry)
      requires Valid() && e in spine && Consistent(v)
      modifies e, `model
      ensures Valid() && spine == old(spine) && repr == old(repr) && model == old(model)[e.name := v]
    {
      e.writers, e.readers := v.writers, v.readers;
      model := model[e.name := v];
    }

    static lemma SuffixTrans(first: seq<LockEntry>, second: seq<LockEntry>, third: seq<LockEntry>)
      requires Suffix(first, second) && Suffix(second, third)
      ensures Suffix(first, third)
    {
      assert third[|third| - |first|..] == third[|third| - |second|..][|second| - |first|..];
    }

    /** One lock-table region of some other thread, on some name. */
    method OtherRegion()
      requires Valid()
      modifies this, repr
      ensures Valid() && Suffix(old(spine), spine)
      ensures fresh(repr - old(repr)) && old(repr) <= repr
    {
      var name: Name := *;
      var kind: Kind := *;
      var takes: bool := *;
      if Storable(name) {
        var e := GetEntry(name);
        if !takes {
          SetCounters(e, Drop(e.Value(), kind));
        } else if !Conflict(e.Value(), kind) {
          SetCounters(e, Grant(e.Value(), kind));
        }
      }
    }

    /**
      `pthread_cond_wait`: the mutex is given up, other threads run any number of lock-table regions on any
      names, and the mutex is taken again.
    */
    method CondWait()
      requires Valid()
      modifies this, repr
      ensures Valid() && Suffix(old(spine), spine)
      ensures fresh(repr - old(repr)) && old(repr) <= repr
    {
      var others: nat := *;
      while others > 0
        invariant Valid() && Suffix(old(spine), spine)
        invariant fresh(repr - old(repr)) && old(repr) <= repr
      {
        ghost var between := spine;
        OtherRegion();
        SuffixTrans(old(spine), between, spine);
        others := others - 1;
      }
    }

    /** One wait, seen from an earlier list. */
    method WaitOnce(ghost before: seq<LockEntry>)
      requires Valid() && Suffix(before, spine)
      modifies this, repr
      ensures Valid() && Suffix(before, spine)
      ensures fresh(repr - old(repr)) && old(repr) <= repr
    {
      CondWait();
      SuffixTrans(before, old(spine), spine);
    }

    /** The waiting loop of both acquires, cut off after `waits` rounds of waiting. */
    method AwaitFree(e: LockEntry, kind: Kind, waits: nat)
      requires Valid() && e in spine
      modifies this, repr
      ensures Valid() && Suffix(old(spine), spine) && e in spine
      ensures fresh(repr - old(repr)) && old(repr) <= repr
      ensures !Conflict(old(e.Value()), kind) ==> spine == old(spine) && model == old(model)
    {
      var rounds := 0;
      while Conflict(e.Value(), kind) && rounds < waits
        invariant Valid() && Suffix(old(spine), spine) && e in spine && rounds <= waits
        invariant fresh(repr - old(repr)) && old(repr) <= repr
        invariant if rounds == 0 then spine == old(spine) && model == old(model) && e.Value() == old(e.Value())
                  else Conflict(old(e.Value()), kind)
      {
        // the pointer kept across the wait is still the entry of its name
        WaitOnce(old(spine));
        rounds := rounds + 1;
      }
    }

    /** The end of both acquires: the entry is taken if it is free for this kind of holder. */
    method TakeIfFree(e: LockEntry, kind: Kind) returns (granted: bool)
      requires Valid() && e in spine
      modifies e, `model
      ensures Valid() && spine == old(spine) && repr == old(repr) && granted == !Conflict(old(e.Value()), kind)
      ensures model == old(model)[e.name := if granted then Grant(old(e.Value()), kind) else old(e.Value())]
      ensures Consistent(old(e.Value())) && old(e.Value()) == EntryAt(old(model), e.name)
    {
      granted := !Conflict(e.Value(), kind);
      if granted {
        SetCounters(e, Grant(e.Value(), kind));
      }
    }

    /** The entry was there when the wait ended, in `found`, and only it was changed. */
    static ghost predicate Taken(found: map<Name, Entry>, model: map<Name, Entry>, name: Name, kind: Kind, granted: bool) {
      && name in found && Consistent(found[name])
      && granted == !Conflict(found[name], kind)
      && model == if granted then found[name := Grant(found[name], kind)] else found
    }

    /** With nobody in the way there is no wait, and no other thread gets between. */
    static ghost predicate AtOnce(before: map<Name, Entry>, found: map<Name, Entry>, name: Name, kind: Kind) {
      !Conflict(EntryAt(before, name), kind) ==> found == before[name := EntryAt(before, name)]
    }

    /** Both acquires: look the entry up, wait while it is taken, and take it. */
    method Acquire(name: Name, kind: Kind, waits: nat) returns (granted: bool, ghost found: map<Name, Entry>)
      requires Valid() && Storable(name)
      modifies this, repr
      ensures Valid() && Suffix(old(spine), spine)
      ensures Taken(found, model, name, kind, granted) && AtOnce(old(model), found, name, kind)
    {
      var e := GetEntry(name);
      ghost var between := spine;
      AwaitFree(e, kind, waits);
      SuffixTrans(old(spine), between, spine);
      found := model;
      granted := TakeIfFree(e, kind);
      Unchanged(found, name);
    }

    static lemma Unchanged(m: map<Name, Entry>, n: Name)
      requires n in m
      ensures m[n := m[n]] == m
    {
    }

    /** What the kind of lock says about the entry before and after a grant. */
    static lemma Granted(found: map<Name, Entry>, model: map<Name, Entry>, name: Name, kind: Kind)
      requires Taken(found, model, name, kind, true)
      ensures kind == Write ==> found[name] == FREE && model[name] == Entry(1, 0)
      ensures kind == Read ==> model[name] == Entry(0, found[name].readers + 1)
    {
    }

    /** `fileops_lock_acquire_write`: the new holder is the only one. */
    method AcquireWrite(name: Name, waits: nat) returns (granted: bool, ghost found: map<Name, Entry>)
      requires Valid() && Storable(name)
      modifies this, repr
      ensures Valid() && Suffix(old(spine), spine)
      ensures Taken(found, model, name, Write, granted) && AtOnce(old(model), found, name, Write)
      ensures granted ==> found[name] == FREE && model[name] == Entry(1, 0)
    {
      granted, found := Acquire(name, Write, waits);
      if granted {
        Granted(found, model, name, Write);
      }
    }

    /** `fileops_lock_acquire_read`: one reader more, and no writer. */
    method AcquireRead(name: Name, waits: nat) returns (granted: bool, ghost found: map<Name, Entry>)
      requires Valid() && Storable(name)
      modifies this, repr
      ensures Valid() && Suffix(old(spine), spine)
      ensures Taken(found, model, name, Read, granted) && AtOnce(old(model), found, name, Read)
      ensures granted ==> model[name] == Entry(0, found[name].readers + 1)
    {
      granted, found := Acquire(name, Read, waits);
      if granted {
        Granted(found, model, name, Read);
      }
    }

    /** `fileops_lock_release_write` and `fileops_lock_release_read`, up to the broadcast. */
    method Release(name: Name, kind: Kind)
      requires Valid() && Storable(name)
      modifies this, repr
      ensures Valid() && Suffix(old(spine), spine) && fresh(repr - old(repr)) && old(repr) <= repr
      ensures model == old(model)[name := Drop(EntryAt(old(model), name), kind)]
    {
      var e := GetEntry(name);
      ghost var found := EntryAt(old(model), name);
      assert e.Value() == found;
      OverwriteTwice(old(model), name, found, Drop(found, kind));
      SetCounters(e, Drop(e.Value(), kind));
    }

    static lemma OverwriteTwice(m: map<Name, Entry>, n: Name, v: Entry, v': Entry)
      ensures m[n := v][n := v'] == m[n := v']
    {
    }
  }
}
