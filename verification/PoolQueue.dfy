// The linked job queue as the queue and the semaphore of the pool's state machine: what its methods do
// on the heap is what the pool's events do to the state.
module PoolQueue {
  import JobQueue
  import opened Options
  import opened ThreadPool

  /** The tickets on the heap, front first. */
  ghost function Tickets(q: JobQueue.Queue<Ticket>): (ts: seq<Ticket>)
    reads q, q.nodes
    ensures |ts| == |q.nodes| && forall i | 0 <= i < |ts| :: ts[i] == q.nodes[i].task
  {
    var nodes := q.nodes;
    seq(|nodes|, i requires 0 <= i < |nodes| => nodes[i].task)
  }

  /** The heap queue and its semaphore are those of the state s. */
  ghost predicate Stands(q: JobQueue.Queue<Ticket>, s: Pool)
    reads q, q.nodes
  {
    q.Valid() && Tickets(q) == s.queue && q.hasJobs == s.v
  }

  /** jobqueue_init: the new queue and its lowered semaphore are those of a new pool. */
  method NewQueue(ghost n: nat) returns (q: JobQueue.Queue<Ticket>)
    ensures fresh(q) && Stands(q, Init(n))
  {
    q := new JobQueue.Queue();
  }

  /** thpool_add_work: a new job is made and pushed, which is Enqueue and the Post that follows. */
  method AddWork(q: JobQueue.Queue<Ticket>, job: Job, id: nat, ghost s: Pool, ghost t: nat)
    requires Stands(q, s) && id == |s.log.accepted|
    modifies q, q.nodes
    ensures Stands(q, Post(Enqueue(s, job), t))
  {
    var newjob := new JobQueue.Job(Ticket(id, job));
    q.Push(newjob);
  }

  /** jobqueue_pull by worker i, with the post when work is left behind. */
  ghost function Pulled(s: Pool, i: nat, t: nat): Pool
    requires i < |s.workers|
  {
    var s' := WorkerNext(s, i, t);
    if |s'.workers| > i && s'.workers[i].PullPosting? then WorkerNext(s', i, t) else s'
  }

  lemma PulledIs(s: Pool, i: nat, t: nat)
    requires WorkerEnabled(s, i) && s.workers[i].Pulling?
    ensures var s', none := Pulled(s, i, t), s.queue == [];
      && s'.queue == (if none then [] else s.queue[1..]) && s'.v == (s.v || |s.queue| > 1)
      && |s'.workers| == |s.workers|
      && s'.workers[i] == PullUnlocking(if none then None else Some(s.queue[0]))
  {}

  method PullWork(q: JobQueue.Queue<Ticket>, ghost s: Pool, ghost i: nat, ghost t: nat) returns (job: JobQueue.Job?<Ticket>)
    requires Stands(q, s) && WorkerEnabled(s, i) && s.workers[i].Pulling?
    modifies q
    ensures Stands(q, Pulled(s, i, t))
    ensures |Pulled(s, i, t).workers| == |s.workers|
    ensures Pulled(s, i, t).workers[i] == PullUnlocking(if job == null then None else Some(job.task))
  {
    PulledIs(s, i, t);
    job := q.Pull();
  }

  /** jobqueue_clear: as many Clearing events as it takes. */
  ghost function Cleared(s: Pool): Pool
    requires s.caller.Clearing?
    decreases |s.queue|
  {
    if s.queue == [] then CallerNext(s, 0) else Cleared(CallerNext(s, 0))
  }

  function Ids(queue: seq<Ticket>): multiset<nat> {
    if queue == [] then multiset{} else multiset{queue[0].id} + Ids(queue[1..])
  }

  lemma {:induction false} ClearedIsEmpty(s: Pool)
    requires s.caller.Clearing?
    ensures Cleared(s).caller.Destroyed? && Cleared(s).queue == [] && !Cleared(s).v
    ensures Cleared(s).log.freed == s.log.freed + Ids(s.queue)
    decreases |s.queue|
  {
    if s.queue != [] { ClearedIsEmpty(CallerNext(s, 0)); }
  }

  /** Each of these events but the last is a jobqueue_pull, its post included. */
  method ClearOne(q: JobQueue.Queue<Ticket>, ghost s: Pool) returns (job: JobQueue.Job?<Ticket>)
    requires Stands(q, s) && s.caller.Clearing? && s.queue != []
    modifies q
    ensures Stands(q, CallerNext(s, 0)) && CallerNext(s, 0).caller.Clearing?
    ensures job != null && CallerNext(s, 0).log.freed == s.log.freed + multiset{job.task.id}
  {
    job := q.Pull();
  }

  method ClearWork(q: JobQueue.Queue<Ticket>, ghost s: Pool) returns (freed: seq<JobQueue.Job<Ticket>>)
    requires Stands(q, s) && s.caller.Clearing?
    modifies q
    ensures Stands(q, Cleared(s))
    ensures |freed| == |s.queue| && forall i | 0 <= i < |freed| :: freed[i].task == s.queue[i]
  {
    ClearedIsEmpty(s);
    freed := q.Clear();
  }
}
