/** The reader/writer rules of one lock-table entry (src/fileops.c). */
module LockRules {
  datatype Kind = Read | Write

  /** The counters of a `file_lock_entry_t`. */
  datatype Entry = Entry(writers: nat, readers: nat)

  const FREE := Entry(0, 0)

  /** The counters of a name; one that was never asked for counts as free. */
  function EntryAt<N>(locks: map<N, Entry>, name: N): Entry {
    if name in locks then locks[name] else FREE
  }

  /** The condition on which an acquire keeps waiting. */
  predicate Conflict(e: Entry, k: Kind) {
    match k
    case Write => e.writers > 0 || e.readers > 0
    case Read => e.writers > 0
  }

  function Grant(e: Entry, k: Kind): Entry {
    match k
    case Write => e.(writers := 1)
    case Read => e.(readers := e.readers + 1)
  }

  function Drop(e: Entry, k: Kind): Entry {
    match k
    case Write => e.(writers := 0)
    case Read => if e.readers > 0 then e.(readers := e.readers - 1) else e
  }

  /** One writer alone, or any number of readers. */
  predicate Consistent(e: Entry) {
    e.writers <= 1 && !(e.writers > 0 && e.readers > 0)
  }
}
