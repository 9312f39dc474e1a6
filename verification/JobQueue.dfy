/** The job queue of the worker pool: head and tail pointers into a singly linked list (src/threadpool.c). */
module JobQueue {

  class JobNode<T> {
    const job: T
    var next: JobNode?<T>

    constructor (job: T)
      ensures this.job == job && next == null
    {
      this.job := job;
      next := null;
    }
  }

  /** What a worker finds in its queue mutex region. */
  datatype Poll<T> = Took(job: T) | Wait | Leave

  class Queue<T> {
    var head: JobNode?<T>
    var tail: JobNode?<T>
    var running: bool
    ghost var spine: seq<JobNode<T>>
    ghost var repr: set<JobNode<T>>

    /** `spine` is the list from `head` to `tail`; an empty list has neither. */
    ghost predicate Valid()
      reads this, repr
    {
      && (forall n :: n in spine ==> n in repr)
      && (if spine == [] then head == null && tail == null
          else head == spine[0] && tail == spine[|spine| - 1])
      && (forall i :: 0 <= i < |spine| ==> spine[i].next == After(spine, i))
      && (forall i, j :: 0 <= i < j < |spine| ==> spine[i] != spine[j])
    }

    static ghost function After(spine: seq<JobNode<T>>, i: nat): JobNode?<T> {
      if i + 1 < |spine| then spine[i + 1] else null
    }

    /** The queued jobs, first to leave first. */
    ghost function Contents(): (s: seq<T>)
      reads this, repr
      requires Valid()
      ensures |s| == |spine| && forall i :: 0 <= i < |s| ==> s[i] == spine[i].job
    {
      seq(|spine|, i requires 0 <= i < |spine| reads this, repr => spine[i].job)
    }

    constructor ()
      ensures Valid() && Contents() == [] && running && repr == {}
    {
      head, tail, running, spine, repr := null, null, true, [], {};
    }

    /** The mutex region of `threadpool_submit`. */
    method Submit(job: T)
      requires Valid()
      modifies this, repr
      ensures Valid() && Contents() == old(Contents()) + [job] && running == old(running)
      ensures fresh(repr - old(repr))
    {
      var node := new JobNode(job);
      if tail == null {
        head := node;
        tail := node;
      } else {
        tail.next := node;
        tail := node;
      }
      spine, repr := spine + [node], repr + {node};
    }

    /** The mutex region of `worker_main`: take the first job, wait for one, or leave after shutdown. */
    method PollQueue() returns (r: Poll<T>)
      requires Valid()
      modifies this
      ensures Valid() && running == old(running)
      ensures r == if old(Contents()) != [] then Took(old(Contents())[0]) else if running then Wait else Leave
      ensures Contents() == if r.Took? then old(Contents())[1..] else old(Contents())
      ensures repr == old(repr)
    {
      if head == null && running {
        r := Wait;
      } else if head == null {
        r := Leave;
      } else {
        var node := head;
        assert spine[0].next == After(spine, 0);
        head := head.next;
        if head == null {
          tail := null;
        }
        spine := spine[1..];
        r := Took(node.job);
      }
    }

    /** The mutex region of `threadpool_shutdown`. */
    method Stop()
      requires Valid()
      modifies `running
      ensures repr == old(repr) && Valid() && !running && Contents() == old(Contents())
    {
      running := false;
    }
  }
}
