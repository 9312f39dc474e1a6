/** LIST: collecting the directory entries, printing them, and the two readers (src/fileops.c, src/handlers.c, both clients). */
module Listing {
  import opened Bytes
  import opened Protocol
  import opened Payloads
  import Bridge

  /** `nervfs_dirent_t`. */
  datatype Dirent = Dirent(name: seq<byte>, size: u64, mode: u32)

  /** What `readdir` and `stat` report for one directory entry. */
  datatype DirItem = DirItem(name: seq<byte>, statOk: bool, regular: bool, size: u64, mode: u32)

  /** What `readdir` guarantees of a name. */
  predicate DirName(name: seq<byte>) {
    1 <= |name| <= MAX_NAME_LEN && 0 !in name
  }

  // ---------------------------------------------------------------- fileops_list_dir

  predicate Listed(d: DirItem) {
    && d.name != [DOT] && d.name != [DOT, DOT]
    && |STORAGE_ROOT| + 1 + |d.name| < PATH_MAX
    && d.statOk && d.regular
  }

  function ToDirent(d: DirItem): Dirent {
    Dirent(d.name, d.size, d.mode % 0x1000)
  }

  /** The regular files of the directory, in directory order. */
  function Collected(items: seq<DirItem>): seq<Dirent> {
    if items == [] then []
    else
      var last := |items| - 1;
      Collected(items[..last]) + if Listed(items[last]) then [ToDirent(items[last])] else []
  }

  /** An item that belongs into a listing: a regular file that can be examined, with a usable name and path. */
  predicate Reportable(d: DirItem) {
    && d.statOk && d.regular
    && d.name != [0x2E] && d.name != [0x2E, 0x2E]
    && |STORAGE_ROOT| + 1 + |d.name| < 4096
  }

  predicate Increasing(idx: seq<nat>) {
    forall k, l :: 0 <= k < l < |idx| ==> idx[k] < idx[l]
  }

  /** Entry and item agree: the name, the size and the twelve mode bits. */
  predicate Shows(e: Dirent, d: DirItem) {
    Reportable(d) && e.name == d.name && e.size == d.size && e.mode == d.mode % 0x1000
  }

  /**
    The entries are the reportable items, in their order, each with its own fields: the k-th entry stands for the
    item at `idx[k]`, and no reportable item is left out.
  */
  ghost predicate Reports(items: seq<DirItem>, entries: seq<Dirent>, idx: seq<nat>) {
    && |idx| == |entries| && Increasing(idx)
    && (forall k :: 0 <= k < |idx| ==> idx[k] < |items| && Shows(entries[k], items[idx[k]]))
    && (forall i :: 0 <= i < |items| && Reportable(items[i]) ==> i in idx)
  }

  lemma ReportsSkip(items: seq<DirItem>, d: DirItem, entries: seq<Dirent>, idx: seq<nat>)
    requires Reports(items, entries, idx) && !Reportable(d)
    ensures Reports(items + [d], entries, idx)
  {
  }

  lemma ReportsTake(items: seq<DirItem>, d: DirItem, entries: seq<Dirent>, idx: seq<nat>, e: Dirent)
    requires Reports(items, entries, idx) && Shows(e, d)
    ensures Reports(items + [d], entries + [e], idx + [|items|])
  {
    var longer := idx + [|items|];
    assert longer[|idx|] == |items|;
    forall i | 0 <= i <= |items| && Reportable((items + [d])[i]) ensures i in longer {
      if i < |items| {
        assert i in idx;
      }
    }
  }

  lemma {:induction false} CollectedReports(items: seq<DirItem>) returns (idx: seq<nat>)
    ensures Reports(items, Collected(items), idx)
  {
    if items == [] {
      idx := [];
    } else {
      var last := |items| - 1;
      assert items == items[..last] + [items[last]];
      idx := CollectedReports(items[..last]);
      if Listed(items[last]) {
        ReportsTake(items[..last], items[last], Collected(items[..last]), idx, ToDirent(items[last]));
        idx := idx + [last];
      } else {
        ReportsSkip(items[..last], items[last], Collected(items[..last]), idx);
      }
    }
  }

  /** `fileops_list_dir`: an array that doubles whenever it is full. */
  method ListDir(items: seq<DirItem>) returns (entries: array<Dirent>, count: nat)
    ensures count <= entries.Length && entries[..count] == Collected(items)
    ensures exists idx :: Reports(items, entries[..count], idx)
    ensures entries.Length >= 16 && (entries.Length == 16 || entries.Length <= 2 * count)
  {
    var blank := Dirent([], 0, 0);
    entries := new Dirent[16](_ => blank);
    count := 0;
    for i := 0 to |items|
      invariant count <= entries.Length && entries[..count] == Collected(items[..i]) && fresh(entries)
      invariant entries.Length >= 16 && (entries.Length == 16 || entries.Length <= 2 * count)
    {
      assert items[..i + 1][..i] == items[..i];
      if Listed(items[i]) {
        if count == entries.Length {
          var grown := new Dirent[2 * entries.Length](_ => blank);
          forall k | 0 <= k < count {
            grown[k] := entries[k];
          }
          assert grown[..count] == entries[..count];
          entries := grown;
        }
        entries[count] := ToDirent(items[i]);
        count := count + 1;
        assert entries[..count] == Collected(items[..i]) + [ToDirent(items[i])];
      }
    }
    assert items[..|items|] == items;
    ghost var idx := CollectedReports(items);
  }

  /** An entry is reported exactly when some directory item is a regular file that can be named and examined. */
  lemma {:induction false} CollectedAreFiles(items: seq<DirItem>, e: Dirent)
    ensures e in Collected(items) <==> exists d :: d in items && Listed(d) && ToDirent(d) == e
  {
    if items != [] {
      var last := |items| - 1;
      CollectedAreFiles(items[..last], e);
      assert items == items[..last] + [items[last]];
      if exists d :: d in items && Listed(d) && ToDirent(d) == e {
        var d :| d in items && Listed(d) && ToDirent(d) == e;
        assert d in items[..last] || d == items[last];
      }
    }
  }

  // ---------------------------------------------------------------- printing

  function EntryBytes(e: Dirent): (s: seq<byte>)
    ensures |s| == |e.name| + 14
  {
    Big(2, |e.name|) + e.name + Big(8, e.size) + Big(4, e.mode)
  }

  function EntriesBytes(es: seq<Dirent>): seq<byte> {
    if es == [] then [] else EntryBytes(es[0]) + EntriesBytes(es[1..])
  }

  /** The body of a list response. */
  function ListBytes(es: seq<Dirent>): seq<byte> {
    Big(4, |es|) + EntriesBytes(es)
  }

  /** Entries whose fields fit the widths the format gives them. */
  predicate Printable(es: seq<Dirent>) {
    |es| < TWO_32 && forall e :: e in es ==> |e.name| < TWO_16
  }

  /** What `fileops_list_dir` leaves in its 256-byte name buffers. */
  predicate GoodNames(es: seq<Dirent>) {
    forall e :: e in es ==> |e.name| <= MAX_NAME_LEN
  }

  lemma {:induction false} EntriesAppend(es: seq<Dirent>, e: Dirent)
    ensures EntriesBytes(es + [e]) == EntriesBytes(es) + EntryBytes(e)
  {
    if es == [] {
      assert es + [e] == [e];
      assert EntriesBytes([e]) == EntryBytes(e) + EntriesBytes([]);
    } else {
      EntriesAppend(es[1..], e);
      assert (es + [e])[1..] == es[1..] + [e];
    }
  }

  lemma {:induction false} EntriesLength(es: seq<Dirent>)
    requires GoodNames(es)
    ensures 14 * |es| <= |EntriesBytes(es)| <= 269 * |es|
    ensures (forall e :: e in es ==> |e.name| == MAX_NAME_LEN) ==> |EntriesBytes(es)| == 269 * |es|
  {
    if es != [] {
      EntriesLength(es[1..]);
      assert es[0] in es;
    }
  }

  /** The largest number of entries that fits a 32-bit payload length whatever the names are. */
  const MAX_ENTRIES := 15_966_421

  lemma ManyEntriesFit(es: seq<Dirent>)
    requires GoodNames(es)
    ensures |es| <= MAX_ENTRIES ==> |ListBytes(es)| < TWO_32
    ensures (forall e :: e in es ==> |e.name| == MAX_NAME_LEN) ==> (|ListBytes(es)| < TWO_32 <==> |es| <= MAX_ENTRIES)
  {
    EntriesLength(es);
  }

  /** The length pass of `handle_list`, in 32-bit arithmetic. */
  method ListLength(entries: seq<Dirent>) returns (payloadLen: u32)
    requires GoodNames(entries)
    ensures |ListBytes(entries)| < TWO_32 <==> payloadLen == |ListBytes(entries)|
  {
    payloadLen := 4;
    ghost var exact := 4;
    for i := 0 to |entries|
      invariant exact == 4 + |EntriesBytes(entries[..i])|
      invariant payloadLen == exact % TWO_32
    {
      assert entries[..i + 1] == entries[..i] + [entries[i]];
      EntriesAppend(entries[..i], entries[i]);
      exact := exact + 2 + |entries[i].name| + 8 + 4;
      payloadLen := Wrap32(payloadLen + 2 + |entries[i].name| + 8 + 4);
    }
    assert entries[..|entries|] == entries;
  }

  /** The four writes for one entry. */
  method PrintEntry(buf: array<byte>, start: nat, e: Dirent) returns (off: nat)
    requires start + |EntryBytes(e)| <= buf.Length
    modifies buf
    ensures off == start + |EntryBytes(e)|
    ensures buf[..off] == old(buf[..start]) + EntryBytes(e)
  {
    off := start;
    PutBytes(buf, off, Big(2, |e.name|));
    off := off + 2;
    PutBytes(buf, off, e.name);
    off := off + |e.name|;
    PutBytes(buf, off, Big(8, e.size));
    off := off + 8;
    PutBytes(buf, off, Big(4, e.mode));
    off := off + 4;
  }

  /** The write pass of `handle_list`: every write is in bounds, and the last one ends at the end of the buffer. */
  method PrintList(entries: seq<Dirent>, payloadLen: u32) returns (buf: array<byte>)
    requires GoodNames(entries) && |ListBytes(entries)| == payloadLen
    ensures buf[..] == ListBytes(entries)
  {
    buf := new byte[payloadLen](_ => 0);
    PutBytes(buf, 0, Big(4, |entries|));
    var off := 4;
    for i := 0 to |entries|
      invariant off == 4 + |EntriesBytes(entries[..i])|
      invariant off <= buf.Length && buf.Length == payloadLen && fresh(buf)
      invariant buf[..off] == Big(4, |entries|) + EntriesBytes(entries[..i])
    {
      PrefixFits(entries, i);
      off := PrintEntry(buf, off, entries[i]);
    }
    assert entries[..|entries|] == entries;
    assert buf[..] == buf[..off];
  }

  /** One more entry still fits into the whole. */
  lemma PrefixFits(es: seq<Dirent>, i: nat)
    requires i < |es|
    ensures EntriesBytes(es[..i + 1]) == EntriesBytes(es[..i]) + EntryBytes(es[i])
    ensures |EntriesBytes(es[..i])| + |EntryBytes(es[i])| <= |EntriesBytes(es)|
  {
    assert es[..i + 1] == es[..i] + [es[i]];
    EntriesAppend(es[..i], es[i]);
    EntriesSplit(es[..i + 1], es[i + 1..]);
    assert es == es[..i + 1] + es[i + 1..];
  }

  lemma {:induction false} EntriesSplit(es: seq<Dirent>, fs: seq<Dirent>)
    ensures EntriesBytes(es + fs) == EntriesBytes(es) + EntriesBytes(fs)
  {
    if es == [] {
      assert es + fs == fs;
    } else {
      var first, mid, last := EntryBytes(es[0]), EntriesBytes(es[1..]), EntriesBytes(fs);
      EntriesSplit(es[1..], fs);
      assert (es + fs)[1..] == es[1..] + fs && (es + fs)[0] == es[0];
      assert EntriesBytes(es + fs) == first + (mid + last);
    }
  }

  // ---------------------------------------------------------------- reading

  /** One entry as both readers take it apart; `None` where a read would leave the buffer. */
  function ReadEntry(s: seq<byte>): (r: Option<(Dirent, nat)>)
    ensures r.Some? ==> r.value.1 <= |s|
  {
    if |s| < 2 then None
    else
      var n := Read16(s[..2]);
      if |s| < n + 14 then None
      else Some((Dirent(s[2..2 + n], Read64(s[2 + n..n + 10]), Read32(s[n + 10..n + 14])), n + 14))
  }

  /** Reading and printing one entry are inverse, whatever follows. */
  lemma EntryRoundTrip(e: Dirent, rest: seq<byte>)
    requires |e.name| < TWO_16
    ensures ReadEntry(EntryBytes(e) + rest) == Some((e, |EntryBytes(e)|))
  {
    var s, n := EntryBytes(e) + rest, |e.name|;
    assert s[..2] == Big(2, n) && s[2..2 + n] == e.name;
    assert s[2 + n..n + 10] == Big(8, e.size);
    assert s[n + 10..n + 14] == Big(4, e.mode);
    Widths();
    PrintInjective(2, Read16(s[..2]), n);
    PrintInjective(8, Read64(s[2 + n..n + 10]), e.size);
    PrintInjective(4, Read32(s[n + 10..n + 14]), e.mode);
  }

  lemma EntryCanonical(s: seq<byte>)
    requires ReadEntry(s).Some?
    ensures var (e, n) := ReadEntry(s).value; |e.name| < TWO_16 && s[..n] == EntryBytes(e) && |EntryBytes(e)| == n
  {
    var n := Read16(s[..2]);
    assert s[..n + 14] == s[..2] + s[2..2 + n] + s[2 + n..n + 10] + s[n + 10..n + 14];
  }

  /** `count` entries from the front of a buffer. */
  function ReadEntries(s: seq<byte>, count: nat): Option<seq<Dirent>> {
    if count == 0 then Some([])
    else if ReadEntry(s).None? then None
    else
      var (e, n) := ReadEntry(s).value;
      var rest := ReadEntries(s[n..], count - 1);
      if rest.None? then None else Some([e] + rest.value)
  }

  lemma FirstEntry(e: Dirent, tail: seq<byte>, k: nat)
    requires |e.name| < TWO_16
    ensures var more := ReadEntries(tail, k);
            ReadEntries(EntryBytes(e) + tail, k + 1) == if more.None? then None else Some([e] + more.value)
  {
    EntryRoundTrip(e, tail);
    assert (EntryBytes(e) + tail)[|EntryBytes(e)|..] == tail;
  }

  lemma {:induction false} EntriesRoundTrip(es: seq<Dirent>, rest: seq<byte>)
    requires forall e :: e in es ==> |e.name| < TWO_16
    ensures ReadEntries(EntriesBytes(es) + rest, |es|) == Some(es)
  {
    if es != [] {
      var tail := EntriesBytes(es[1..]) + rest;
      assert EntriesBytes(es) + rest == EntryBytes(es[0]) + tail;
      EntriesRoundTrip(es[1..], rest);
      FirstEntry(es[0], tail, |es| - 1);
      assert es == [es[0]] + es[1..];
    }
  }

  lemma Joined(s: seq<byte>, x: seq<byte>, y: seq<byte>)
    requires |x| <= |s| && s[..|x|] == x && y <= s[|x|..]
    ensures x + y <= s
  {
    assert s == s[..|x|] + s[|x|..];
  }

  lemma {:induction false} EntriesCanonical(s: seq<byte>, count: nat)
    requires ReadEntries(s, count).Some?
    ensures var es := ReadEntries(s, count).value;
            |es| == count && EntriesBytes(es) <= s && forall e :: e in es ==> |e.name| < TWO_16
  {
    if count > 0 {
      var (e, n) := ReadEntry(s).value;
      EntryCanonical(s);
      EntriesCanonical(s[n..], count - 1);
      var rest := ReadEntries(s[n..], count - 1).value;
      var es := [e] + rest;
      assert es[0] == e && es[1..] == rest;
      Joined(s, EntryBytes(e), EntriesBytes(rest));
    }
  }

  /** What a reader of a list body returns. */
  function ReadList(body: seq<byte>): Option<seq<Dirent>> {
    if |body| < 4 then None else ReadEntries(body[4..], Read32(body[..4]))
  }

  lemma ListPrinted(body: seq<byte>, es: seq<Dirent>)
    requires Printable(es) && ListBytes(es) <= body
    ensures ReadList(body) == Some(es)
  {
    assert body[..4] == Big(4, |es|);
    Widths();
    PrintInjective(4, Read32(body[..4]), |es|);
    var rest := body[|ListBytes(es)|..];
    assert body[4..] == EntriesBytes(es) + rest;
    EntriesRoundTrip(es, rest);
  }

  lemma ListRead(body: seq<byte>)
    requires ReadList(body).Some?
    ensures var es := ReadList(body).value; Printable(es) && ListBytes(es) <= body
  {
    EntriesCanonical(body[4..], Read32(body[..4]));
    Joined(body, body[..4], EntriesBytes(ReadList(body).value));
  }

  /** A list body is read as `es` exactly when it starts with the printed form of `es`. */
  lemma ListRoundTrip(body: seq<byte>, es: seq<Dirent>)
    ensures ReadList(body) == Some(es) <==> Printable(es) && ListBytes(es) <= body
  {
    if ReadList(body).Some? {
      ListRead(body);
    }
    if Printable(es) && ListBytes(es) <= body {
      ListPrinted(body, es);
    }
  }

  lemma SliceOfRest(body: seq<byte>, start: nat, i: nat, j: nat)
    requires start + j <= |body| && i <= j
    ensures body[start..][i..j] == body[start + i..start + j]
  {
  }

  /** One round of the reading loop of `do_list`, on a buffer that holds a whole entry there. */
  method ReadEntryInC(buf: array<byte>, start: nat, ghost body: seq<byte>) returns (e: Dirent, off: nat)
    requires body == buf[..] && start <= |body| && ReadEntry(body[start..]).Some?
    ensures off <= |body| && (e, off - start) == ReadEntry(body[start..]).value
  {
    SliceOfRest(body, start, 0, 2);
    var nlen: int := Read16(buf[start..start + 2]);
    SliceOfRest(body, start, 2, 2 + nlen);
    SliceOfRest(body, start, 2 + nlen, nlen + 10);
    SliceOfRest(body, start, nlen + 10, nlen + 14);
    off := start + 2;
    var name := buf[off..off + nlen];
    off := off + nlen;
    var size := Read64(buf[off..off + 8]);
    off := off + 8;
    ShiftedIsValue(body[off..off + 4]);
    var mode := Shifted(buf[off], buf[off + 1], buf[off + 2], buf[off + 3]);
    assert mode == Read32(body[off..off + 4]);
    off := off + 4;
    e := Dirent(name, size, mode);
  }

  /** Of `all` there is to read, the entries in `done` have been read, and `left` more are still to come at `off`. */
  predicate Reading(all: Option<seq<Dirent>>, body: seq<byte>, done: seq<Dirent>, off: nat, left: nat) {
    off <= |body| && all == Rest(done, ReadEntries(body[off..], left))
  }

  /** The entries read so far, followed by those still to read. */
  function Rest(done: seq<Dirent>, more: Option<seq<Dirent>>): Option<seq<Dirent>> {
    if more.None? then None else Some(done + more.value)
  }

  lemma ReadingStarts(body: seq<byte>, start: nat, count: nat)
    requires start <= |body|
    ensures Reading(ReadEntries(body[start..], count), body, [], start, count)
  {
    var all := ReadEntries(body[start..], count);
    assert all.Some? ==> [] + all.value == all.value;
  }

  /** One round of either reading loop, when there is an entry. */
  lemma ReadingGoesOn(all: Option<seq<Dirent>>, body: seq<byte>, done: seq<Dirent>, off: nat, left: nat)
    requires Reading(all, body, done, off, left) && left > 0 && ReadEntry(body[off..]).Some?
    ensures var (e, n) := ReadEntry(body[off..]).value; Reading(all, body, done + [e], off + n, left - 1)
  {
    var (e, n) := ReadEntry(body[off..]).value;
    assert body[off..][n..] == body[off + n..];
    var more := ReadEntries(body[off + n..], left - 1);
    if more.Some? {
      assert done + [e] + more.value == done + ([e] + more.value);
    }
  }

  /** And when there is none. */
  lemma ReadingFails(all: Option<seq<Dirent>>, body: seq<byte>, done: seq<Dirent>, off: nat, left: nat)
    requires Reading(all, body, done, off, left) && left > 0
    ensures ReadEntry(body[off..]).None? ==> all == None
  {
  }

  lemma ReadingEnds(all: Option<seq<Dirent>>, body: seq<byte>, done: seq<Dirent>, off: nat)
    requires Reading(all, body, done, off, 0)
    ensures all == Some(done)
  {
    assert done + [] == done;
  }

  method ReadEntriesInC(buf: array<byte>, start: nat, count: nat, ghost body: seq<byte>) returns (files: seq<Dirent>)
    requires body == buf[..] && start <= |body| && ReadEntries(body[start..], count).Some?
    ensures Some(files) == ReadEntries(body[start..], count)
  {
    var off := start;
    files := [];
    ghost var all := ReadEntries(body[start..], count);
    ReadingStarts(body, start, count);
    for i := 0 to count
      invariant buf[..] == body && Reading(all, body, files, off, count - i)
    {
      ReadingFails(all, body, files, off, count - i);
      ReadingGoesOn(all, body, files, off, count - i);
      var e;
      e, off := ReadEntryInC(buf, off, body);
      files := files + [e];
    }
    ReadingEnds(all, body, files, off);
  }

  /** `do_list`, which trusts the server: the body must be a printed list. */
  method ReadListInC(buf: array<byte>) returns (files: seq<Dirent>)
    requires ReadList(buf[..]).Some?
    ensures Some(files) == ReadList(buf[..])
  {
    ShiftedIsValue(buf[..4]);
    var count := Shifted(buf[0], buf[1], buf[2], buf[3]);
    files := ReadEntriesInC(buf, 4, count, buf[..]);
  }

  /**
    One round of the loop of `listFiles`: `subarray` clamps at the end of the buffer, the numeric reads throw
    there. `None` stands for the RangeError.
  */
  method ReadEntryInJs(body: seq<byte>, start: nat) returns (r: Option<(Dirent, nat)>)
    requires start <= |body|
    ensures r == ReadEntry(body[start..])
  {
    if start + 2 > |body| {
      return None;
    }
    SliceOfRest(body, start, 0, 2);
    Bridge.ReadersAgree16(body, start);
    var nameLen: int := Bridge.ReadUInt16(body, start);
    var offset := start + 2;
    var name := body[offset..if offset + nameLen <= |body| then offset + nameLen else |body|];
    offset := offset + nameLen;
    if offset + 8 > |body| {
      return None;
    }
    Bridge.ReadersAgree64(body, offset);
    var size := Bridge.ReadBigUInt64(body, offset);
    offset := offset + 8;
    if offset + 4 > |body| {
      return None;
    }
    Bridge.ReadersAgree32(body, offset);
    var mode := Bridge.ReadUInt32(body, offset);
    offset := offset + 4;
    SliceOfRest(body, start, 2, 2 + nameLen);
    SliceOfRest(body, start, 2 + nameLen, nameLen + 10);
    SliceOfRest(body, start, nameLen + 10, nameLen + 14);
    r := Some((Dirent(name, size, mode), offset - start));
  }

  method ReadEntriesInJs(body: seq<byte>, start: nat, count: nat) returns (files: Option<seq<Dirent>>)
    requires start <= |body|
    ensures files == ReadEntries(body[start..], count)
  {
    var offset := start;
    var list: seq<Dirent> := [];
    ghost var all := ReadEntries(body[start..], count);
    ReadingStarts(body, start, count);
    for i := 0 to count
      invariant Reading(all, body, list, offset, count - i)
    {
      ReadingFails(all, body, list, offset, count - i);
      var next := ReadEntryInJs(body, offset);
      if next.None? {
        return None;
      }
      ReadingGoesOn(all, body, list, offset, count - i);
      list := list + [next.value.0];
      offset := offset + next.value.1;
    }
    ReadingEnds(all, body, list, offset);
    return Some(list);
  }

  /** `listFiles`. */
  method ReadListInJs(body: seq<byte>) returns (files: Option<seq<Dirent>>)
    ensures files == ReadList(body)
  {
    if |body| < 4 {
      return None;
    }
    Bridge.ReadersAgree32(body, 0);
    files := ReadEntriesInJs(body, 4, Bridge.ReadUInt32(body, 0));
  }

  // ---------------------------------------------------------------- both ends together

  lemma {:induction false} CollectedNames(items: seq<DirItem>)
    requires forall d :: d in items ==> DirName(d.name)
    ensures GoodNames(Collected(items))
  {
    if items != [] {
      CollectedNames(items[..|items| - 1]);
    }
  }

  /** `handle_list`: whatever the directory holds, both readers get back exactly its regular files. */
  method HandleList(items: seq<DirItem>, elapsed: u64) returns (r: Reply)
    requires forall d :: d in items ==> DirName(d.name)
    requires |ListBytes(Collected(items))| < TWO_32
    ensures r.opcode == RESP_LIST_DATA && r.elapsed == elapsed && |r.body| < TWO_32
    ensures ReadList(r.body) == Some(Collected(items))
    ensures exists idx :: Reports(items, ReadList(r.body).value, idx)
  {
    CollectedNames(items);
    ghost var idx := CollectedReports(items);
    var entries, count := ListDir(items);
    var payloadLen := ListLength(entries[..count]);
    var buf := PrintList(entries[..count], payloadLen);
    EntriesLength(Collected(items));
    ListPrinted(buf[..], Collected(items));
    r := Reply(RESP_LIST_DATA, elapsed, buf[..]);
  }
}
