/** Runs of the server built step by step. */
module Paths {
  import opened Bytes
  import opened Protocol
  import opened Payloads
  import opened LockRules
  import opened Server

  /** A run so far: what was done from `s`, and where it led. */
  datatype Path = Path(acts: seq<Action>, end: State)

  predicate Leads(s: State, p: Path) {
    Runs(s, p.acts, p.end)
  }

  function Then(p: Path, act: Action): Path
    requires Enabled(p.end, act)
  {
    Path(p.acts + [act], Do(p.end, act))
  }

  lemma Next(s: State, p: Path, act: Action) returns (q: Path)
    requires Leads(s, p) && Enabled(p.end, act)
    ensures q == Then(p, act) && Leads(s, q) && q.end == Do(p.end, act)
  {
    RunsThen(s, p.acts, p.end, act);
    q := Then(p, act);
  }

  predicate Reads(x: Worker, n: Name, stage: Stage) {
    x.Handling? && x.req == Download(n) && x.stage == stage
  }

  predicate Awake(s: State) {
    s.running && s.queue == [] && forall i :: 0 <= i < |s.workers| ==> !s.workers[i].PoolAsleep?
  }

  predicate NamesFile(fs: Fs, n: Name) {
    ValidName(n) && n in fs.dir
  }

  /** A new job reaches the handler of worker `w`; nothing else moves. */
  lemma Arrive(s: State, p: Path, w: nat, job: Job) returns (q: Path)
    requires Leads(s, p) && Awake(p.end) && w < |p.end.workers| && p.end.workers[w] == Checking
    ensures Leads(s, q) && Awake(q.end) && p.end.log <= q.end.log
    ensures var id := |p.end.jobs|;
            && q.end.workers == p.end.workers[w := Handling(id, RequestOf(job), Ready)]
            && q.end.jobs == p.end.jobs + [job] && q.end.out == p.end.out + [[]]
            && q.end.locks == p.end.locks && q.end.fs == p.end.fs
  {
    var id := |p.end.jobs|;
    q := Next(s, p, Submit(job, {}));
    assert q.end.workers == p.end.workers;
    q := Next(s, q, Step(w, Poll));
    if |job.payload| > 0 {
      assert q.end.workers == p.end.workers[w := Receiving(id, |job.payload|)];
      q := Next(s, q, Step(w, Receive(|job.payload|)));
    }
    assert q.end.workers == p.end.workers[w := Handling(id, RequestOf(job), Ready)];
  }

  /** A reader with its lock opens, measures and maps the file. */
  lemma StartSending(s: State, p: Path, w: nat, n: Name) returns (q: Path)
    requires Leads(s, p) && Awake(p.end) && w < |p.end.workers| && Reads(p.end.workers[w], n, Locked)
    requires NamesFile(p.end.fs, n)
    ensures Leads(s, q) && Awake(q.end) && p.end.log <= q.end.log
    ensures var ino := p.end.fs.dir[n];
            var stage := Sending(ino, |Contents(p.end.fs, ino).data|, 0, 0);
            q.end.workers == p.end.workers[w := p.end.workers[w].(stage := stage)]
    ensures q.end.jobs == p.end.jobs && q.end.out == p.end.out && q.end.locks == p.end.locks && q.end.fs == p.end.fs
  {
    var ws := p.end.workers;
    var ino := p.end.fs.dir[n];
    q := Next(s, p, Step(w, Call(OpenRead(true))));
    assert q.end.workers == ws[w := ws[w].(stage := Reading(ino))];
    q := Next(s, q, Step(w, Call(Fstat(true))));
    var size := |Contents(p.end.fs, ino).data|;
    assert q.end.workers == ws[w := ws[w].(stage := Sized(ino, size))];
    q := Next(s, q, Step(w, MapFile(0)));
    assert q.end.workers == ws[w := ws[w].(stage := Sending(ino, size, 0, 0))];
  }
}
