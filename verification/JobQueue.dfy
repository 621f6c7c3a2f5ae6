// The linked job queue of thpool.c. Its methods run under rwmutex, so each is sequential; hasJobs
// is the value of the binary semaphore that push and pull post.
module JobQueue {
  class Job<T> {
    var prev: Job?<T>         // the job queued next after this one
    const task: T             // function and argument

    constructor (task: T)
      ensures this.task == task && prev == null
    {
      this.task, prev := task, null;
    }
  }

  class Queue<T> {
    var front: Job?<T>
    var rear: Job?<T>
    var len: int
    var hasJobs: bool
    ghost var nodes: seq<Job<T>>        // front first

    ghost predicate Valid()
      reads this, nodes
    {
      && len == |nodes|
      && (forall i {:trigger nodes[i].prev} | 0 <= i < |nodes| - 1 :: nodes[i].prev == nodes[i + 1])
      && (len == 0 ==> front == null && rear == null)
      && (len > 0 ==> front == nodes[0] && rear == nodes[len - 1] && nodes[len - 1].prev == null)
    }

    constructor ()
      ensures Valid() && nodes == [] && !hasJobs
    {
      front, rear, len, hasJobs, nodes := null, null, 0, false, [];
    }

    method Push(newjob: Job<T>)
      requires Valid() && newjob !in nodes
      modifies this, nodes, newjob
      ensures Valid() && nodes == old(nodes) + [newjob]
      ensures hasJobs
    {
      newjob.prev := null;
      if len == 0 {
        front := newjob;
        rear := newjob;
      } else {
        rear.prev := newjob;
        rear := newjob;
      }
      len := len + 1;
      hasJobs := true;
      nodes := nodes + [newjob];
    }

    /** Takes the front job, or returns null; posts when work is left behind. */
    method Pull() returns (job: Job?<T>)
      requires Valid()
      modifies this
      ensures Valid()
      ensures old(nodes) == [] ==> job == null && nodes == [] && hasJobs == old(hasJobs)
      ensures old(nodes) != [] ==> job == old(nodes)[0] && nodes == old(nodes)[1..]
      ensures old(nodes) != [] ==> hasJobs == (old(hasJobs) || nodes != [])
    {
      job := front;
      if len == 0 {
      } else if len == 1 {
        front := null;
        rear := null;
        len := 0;
        nodes := nodes[1..];
      } else {
        front := job.prev;
        len := len - 1;
        hasJobs := true;
        ghost var before := nodes;
        nodes := nodes[1..];
        assert forall i | 0 <= i < |nodes| :: nodes[i] == before[i + 1];
      }
    }

    /** Pulls until the queue is empty; freed lists the jobs in the order they were released. */
    method Clear() returns (freed: seq<Job<T>>)
      requires Valid()
      modifies this
      ensures Valid() && nodes == [] && !hasJobs
      ensures freed == old(nodes)
    {
      freed := [];
      ghost var prior, k := nodes, 0;
      while len != 0
        invariant Valid() && k + len == |prior|
        invariant nodes == prior[k..] && freed == prior[..k]
        decreases len
      {
        var job := Pull();
        assert job == prior[k] && prior[k..][1..] == prior[k + 1..];
        freed, k := freed + [job], k + 1;
      }
      front := null;
      rear := null;
      hasJobs := false;
      len := 0;
    }
  }

  /** The jobs met by following at most k prev links from job. */
  ghost function Walk<T>(job: Job?<T>, k: nat): seq<Job<T>>
    reads *
  {
    if job == null || k == 0 then [] else [job] + Walk(job.prev, k - 1)
  }

  /** From the i-th job the links visit the rest of the queue in order, then stop. */
  lemma {:induction false} WalkFrom<T>(q: Queue<T>, i: nat, k: nat)
    requires q.Valid() && i < q.len
    ensures |Walk(q.nodes[i], k)| == if i + k <= q.len then k else q.len - i
    ensures forall j | 0 <= j < |Walk(q.nodes[i], k)| :: Walk(q.nodes[i], k)[j] == q.nodes[i + j]
    decreases k
  {
    if k > 0 {
      if i + 1 < q.len {
        WalkFrom(q, i + 1, k - 1);
      } else {
        assert Walk(q.nodes[i].prev, k - 1) == [];
      }
    }
  }

  /** However far one follows the links from front, one meets exactly the len queued jobs. */
  lemma FrontReachesExactlyLen<T>(q: Queue<T>, k: nat)
    requires q.Valid() && k >= q.len
    ensures Walk(q.front, k) == q.nodes && |q.nodes| == q.len
  {
    if q.len > 0 { WalkFrom(q, 0, k); }
  }

  /** The links have no cycle: no job is in the queue twice. */
  lemma {:induction false} NoJobTwice<T>(q: Queue<T>, i: nat, j: nat)
    requires q.Valid() && i < j < q.len
    ensures q.nodes[i] != q.nodes[j]
    decreases q.len - j
  {
    if q.nodes[i] == q.nodes[j] {
      assert q.nodes[i].prev == q.nodes[i + 1];
      if j + 1 < q.len {
        assert q.nodes[j].prev == q.nodes[j + 1];
        NoJobTwice(q, i + 1, j + 1);
      }
      assert false;
    }
  }
}
