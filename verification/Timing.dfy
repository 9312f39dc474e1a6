/** The clock arithmetic of the handlers (src/handlers.c). */
module Timing {
  import opened Bytes
  import opened Payloads

  /** `struct timespec`. */
  datatype TimeSpec = TimeSpec(sec: int, nsec: int)

  const NANOS := 1_000_000_000

  predicate Normalised(t: TimeSpec) {
    0 <= t.nsec < NANOS
  }

  /** The instant in nanoseconds. */
  function Instant(t: TimeSpec): int {
    t.sec * NANOS + t.nsec
  }

  /** C's division, which truncates towards zero. */
  function Quotient(n: int, d: int): int
    requires d > 0
  {
    if n >= 0 then n / d else -(-n / d)
  }

  /** `elapsed_microseconds`, with the borrow, and the final cast to 64 bits. */
  function Elapsed(start: TimeSpec, end: TimeSpec): u64 {
    var secDiff := end.sec - start.sec;
    var nsecDiff := end.nsec - start.nsec;
    var (s, n) := if nsecDiff < 0 then (secDiff - 1, nsecDiff + NANOS) else (secDiff, nsecDiff);
    (s * 1_000_000 + Quotient(n, 1000)) % TWO_64
  }

  /** Between any two normalised readings, also ones out of order: the whole microseconds, rounded down, in 64 bits. */
  lemma ElapsedWraps(start: TimeSpec, end: TimeSpec)
    requires Normalised(start) && Normalised(end)
    ensures Elapsed(start, end) == ((Instant(end) - Instant(start)) / 1000) % TWO_64
  {
    var d := Instant(end) - Instant(start);
    var (s, n) := if end.nsec < start.nsec then (end.sec - start.sec - 1, end.nsec - start.nsec + NANOS)
                  else (end.sec - start.sec, end.nsec - start.nsec);
    assert d == s * NANOS + n && 0 <= n < NANOS;
    assert d == 1000 * (s * 1_000_000) + n;
    assert d / 1000 == s * 1_000_000 + n / 1000;
  }

  /**
    Between two normalised readings in order, the result is the whole number of microseconds between them,
    exactly when that number fits 64 bits.
  */
  lemma ElapsedIsFloor(start: TimeSpec, end: TimeSpec)
    requires Normalised(start) && Normalised(end) && Instant(start) <= Instant(end)
    ensures var exact := (Instant(end) - Instant(start)) / 1000;
            Elapsed(start, end) == exact <==> exact < TWO_64
  {
    ElapsedWraps(start, end);
  }

  /** The five readings of `handle_upload_timed`; the wait for the lock lies between the second and the third. */
  datatype Readings = Readings(netStart: TimeSpec, netEnd: TimeSpec, writeStart: TimeSpec, writeEnd: TimeSpec,
                               syncEnd: TimeSpec)

  predicate InOrder(r: Readings) {
    && Normalised(r.netStart) && Normalised(r.netEnd) && Normalised(r.writeStart) && Normalised(r.writeEnd)
    && Normalised(r.syncEnd)
    && Instant(r.netStart) <= Instant(r.netEnd) <= Instant(r.writeStart) <= Instant(r.writeEnd) <= Instant(r.syncEnd)
  }

  /** The metrics an upload reports. */
  function Metrics(r: Readings): Times {
    Times(Elapsed(r.netStart, r.netEnd), Elapsed(r.writeStart, r.writeEnd), Elapsed(r.writeEnd, r.syncEnd))
  }

  /** Three floors lose less than three microseconds. */
  lemma SumOfFloors(x: nat, y: nat, z: nat)
    requires x + y + z < 1000 * TWO_64
    ensures var sum := x / 1000 + y / 1000 + z / 1000;
            sum < TWO_64 && x + y + z - 3000 < 1000 * sum <= x + y + z
  {
  }

  /** The three metrics are whole microseconds, in a reading shorter than 64 bits of microseconds. */
  lemma MetricsAreFloors(r: Readings)
    requires InOrder(r) && Instant(r.syncEnd) - Instant(r.netStart) < 1000 * TWO_64
    ensures var m := Metrics(r);
            && m.network == (Instant(r.netEnd) - Instant(r.netStart)) / 1000
            && m.write == (Instant(r.writeEnd) - Instant(r.writeStart)) / 1000
            && m.sync == (Instant(r.syncEnd) - Instant(r.writeEnd)) / 1000
  {
    ElapsedIsFloor(r.netStart, r.netEnd);
    ElapsedIsFloor(r.writeStart, r.writeEnd);
    ElapsedIsFloor(r.writeEnd, r.syncEnd);
  }

  /** The 64-bit sum of the three metrics, when it does not wrap. */
  lemma ReportedSum(m: Times)
    requires m.network + m.write + m.sync < TWO_64
    ensures UploadReply(m).elapsed == m.network + m.write + m.sync
  {
  }

  /**
    The total an upload reports leaves the lock wait out: it is never more than the time it took, and less than
    three microseconds short of that time without the wait.
  */
  lemma UploadTotal(r: Readings)
    requires InOrder(r) && Instant(r.syncEnd) - Instant(r.netStart) < 1000 * TWO_64
    ensures var total := UploadReply(Metrics(r)).elapsed;
            var whole := Instant(r.syncEnd) - Instant(r.netStart);
            var wait := Instant(r.writeStart) - Instant(r.netEnd);
            whole - wait - 3000 < 1000 * total <= whole - wait
  {
    var a, b, c, d, e := Instant(r.netStart), Instant(r.netEnd), Instant(r.writeStart), Instant(r.writeEnd),
      Instant(r.syncEnd);
    MetricsAreFloors(r);
    SumOfFloors(b - a, d - c, e - d);
    ReportedSum(Metrics(r));
  }
}
