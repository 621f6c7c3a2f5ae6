// thpool.c as a state machine. One event is one critical section, or one read made
// without a lock; the two reads of thpool_wait, and the post nested inside the job-queue
// lock, are separate events, so every interleaving the C code allows is a run here.
module ThreadPool {
  import opened Options

  /** A job is the tree of jobs it submits, in order, while it runs; `request` is what it handles, if anything. */
  datatype Job = Job(children: seq<Job>, request: Option<nat>)

  /** A queued job: ids number the accepted jobs from 0. */
  datatype Ticket = Ticket(id: nat, job: Job)

  /** Where a pool thread stands in thread_do. */
  datatype Worker =
    | Starting                                  // not yet counted as alive
    | Top                                       // about to read threads_keepalive in the loop test
    | Entering                                  // about to enter bsem_wait
    | Asleep                                    // in pthread_cond_wait on the semaphore
    | Woken                                     // signalled, about to test v again
    | Passed                                    // out of bsem_wait, about to read threads_keepalive
    | Counting                                  // about to increment num_threads_working
    | Pulling                                   // about to lock rwmutex in jobqueue_pull
    | PullPosting(ticket: Ticket)               // holds rwmutex, work is left behind, about to post
    | PullUnlocking(got: Option<Ticket>)        // holds rwmutex, about to unlock
    | Calling(ticket: Ticket)                   // about to call the job's function
    | Running(id: nat, rest: seq<Job>)          // runs its job; rest is still to be submitted
    | PushPosting(id: nat, rest: seq<Job>)      // holds rwmutex in jobqueue_push, about to post
    | PushUnlocking(id: nat, rest: seq<Job>)    // holds rwmutex, about to unlock
    | Uncounting                                // about to decrement num_threads_working
    | Leaving                                   // out of the loop, about to decrement num_threads_alive
    | Gone

  /** Where the thread that owns the pool stands. */
  datatype Caller =
    | Booting                                   // thpool_init polls num_threads_alive
    | Idle                                      // outside the pool's functions
    | PushPost | PushUnlock                     // thpool_add_work, holding rwmutex
    | Locking                                   // thpool_wait, about to lock thcount_lock
    | ReadLen | ReadWorking                     // holding thcount_lock, about to read
    | GoSleep                                   // holding thcount_lock, about to wait on the condition
    | Waiting                                   // in pthread_cond_wait on threads_all_idle
    | Signalled                                 // woken, about to lock thcount_lock again
    | Polling | Posting                         // thpool_destroy: read num_threads_alive, bsem_post_all
    | Clearing                                  // jobqueue_clear
    | Destroyed

  datatype Pool = Pool(
    workers: seq<Worker>,
    caller: Caller,
    queue: seq<Ticket>,       // front first; its length is len
    rw: bool,                 // rwmutex is held
    th: bool,                 // thcount_lock is held across events
    v: bool,                  // the binary semaphore
    working: int,
    alive: int,
    keepalive: bool,
    log: Log)

  /** History: what was accepted, by whom, and what became of it. */
  datatype Log = Log(
    accepted: seq<Job>,
    kids: seq<seq<nat>>,      // ids of the jobs each job has submitted so far
    done: multiset<nat>,
    freed: multiset<nat>,
    late: seq<nat>)           // jobs each worker started after threads_keepalive was cleared

  datatype Event =
    | Work(i: nat, t: nat)    // worker i moves; a signal it sends wakes worker t
    | Advance(t: nat)         // the caller moves on inside the function it called
    | Submit(job: Job) | Wait | Destroy
    | SpuriousWorker(i: nat) | SpuriousCaller

  // ---------- Sums over the workers ----------

  function Total(f: Worker -> nat, ws: seq<Worker>): nat {
    if ws == [] then 0 else f(ws[0]) + Total(f, ws[1..])
  }

  /** Counted in num_threads_working. */
  function Busy(w: Worker): nat {
    match w
    case Pulling => 1
    case PullPosting(_) => 1
    case PullUnlocking(_) => 1
    case Calling(_) => 1
    case Running(_, _) => 1
    case PushPosting(_, _) => 1
    case PushUnlocking(_, _) => 1
    case Uncounting => 1
    case _ => 0
  }

  /** Holds rwmutex. */
  function Holds(w: Worker): nat {
    if w.PullPosting? || w.PullUnlocking? || w.PushPosting? || w.PushUnlocking? then 1 else 0
  }

  /** Past bsem_wait, and bound to look into the queue. */
  function Takes(w: Worker): nat { if w.Passed? || w.Counting? || w.Pulling? then 1 else 0 }

  /** Holds rwmutex and is about to post. */
  function Posts(w: Worker): nat { if w.PullPosting? || w.PushPosting? then 1 else 0 }

  function Sleeps(w: Worker): nat { if w.Asleep? then 1 else 0 }

  function Wakes(w: Worker): nat { if w.Woken? then 1 else 0 }

  function Starts(w: Worker): nat { if w.Starting? then 1 else 0 }

  /** Counted in num_threads_alive. */
  function Live(w: Worker): nat { if !w.Starting? && !w.Gone? then 1 else 0 }

  function Leaves(w: Worker): nat { if w.Leaving? || w.Gone? then 1 else 0 }

  // ---------- Semaphore and queue ----------

  /** pthread_cond_signal wakes a sleeper when there is one. */
  predicate Target(ws: seq<Worker>, t: nat) {
    Total(Sleeps, ws) > 0 ==> t < |ws| && ws[t].Asleep?
  }

  function Signal(ws: seq<Worker>, t: nat): seq<Worker> {
    if t < |ws| && ws[t].Asleep? then ws[t := Woken] else ws
  }

  /** pthread_cond_broadcast. */
  function Broadcast(ws: seq<Worker>): seq<Worker> {
    if ws == [] then [] else [if ws[0].Asleep? then Woken else ws[0]] + Broadcast(ws[1..])
  }

  function Post(s: Pool, t: nat): Pool {
    s.(v := true, workers := Signal(s.workers, t))
  }

  /** jobqueue_push up to its post: the job joins the rear under rwmutex. */
  function Enqueue(s: Pool, job: Job): Pool {
    s.(queue := s.queue + [Ticket(|s.log.accepted|, job)],
       log := s.log.(accepted := s.log.accepted + [job], kids := s.log.kids + [[]]),
       rw := true)
  }

  /** The ledger entry for a job that submits another one. */
  function Adopt(kids: seq<seq<nat>>, parent: nat, child: nat): seq<seq<nat>> {
    if parent < |kids| then kids[parent := kids[parent] + [child]] else kids
  }

  // ---------- Workers ----------

  predicate WorkerEnabled(s: Pool, i: nat) {
    i < |s.workers| &&
    match s.workers[i]
    case Starting => !s.th
    case Counting => !s.th
    case Uncounting => !s.th
    case Leaving => !s.th
    case Pulling => !s.rw
    case Running(_, rest) => rest == [] || !s.rw
    case Asleep => false
    case Gone => false
    case _ => true
  }

  /** The worker's next position. */
  function Moved(s: Pool, w: Worker): Worker {
    match w
    case Starting => Top
    case Top => if s.keepalive then Entering else Leaving
    case Entering => if s.v then Passed else Asleep
    case Asleep => Asleep
    case Woken => if s.v then Passed else Asleep
    case Passed => if s.keepalive then Counting else Top
    case Counting => Pulling
    case Pulling =>
      if s.queue == [] then PullUnlocking(None)
      else if |s.queue| == 1 then PullUnlocking(Some(s.queue[0]))
      else PullPosting(s.queue[0])
    case PullPosting(ticket) => PullUnlocking(Some(ticket))
    case PullUnlocking(got) => if got.Some? then Calling(got.value) else Uncounting
    case Calling(ticket) => Running(ticket.id, ticket.job.children)
    case Running(id, rest) => if rest == [] then Uncounting else PushPosting(id, rest[1..])
    case PushPosting(id, rest) => PushUnlocking(id, rest)
    case PushUnlocking(id, rest) => Running(id, rest)
    case Uncounting => Top
    case Leaving => Gone
    case Gone => Gone
  }

  function WorkerNext(s: Pool, i: nat, t: nat): Pool
    requires i < |s.workers|
  {
    var w := s.workers[i];
    var s' := s.(workers := s.workers[i := Moved(s, w)]);
    match w
    case Starting => s'.(alive := s.alive + 1)
    case Entering => s'.(v := false)
    case Woken => s'.(v := false)
    case Counting => s'.(working := s.working + 1)
    case Pulling =>
      if s.queue == [] then s'.(rw := true)
      else s'.(rw := true, queue := s.queue[1..])
    case PullPosting(_) => Post(s', t)
    case PullUnlocking(_) => s'.(rw := false)
    case Calling(_) =>
      s'.(log := if s.keepalive || i >= |s.log.late| then s.log
                 else s.log.(late := s.log.late[i := s.log.late[i] + 1]))
    case Running(id, rest) =>
      if rest == [] then s'.(log := s.log.(done := s.log.done + multiset{id}))
      else var s'' := Enqueue(s', rest[0]);
           s''.(log := s''.log.(kids := Adopt(s''.log.kids, id, |s.log.accepted|)))
    case PushPosting(_, _) => Post(s', t)
    case PushUnlocking(_, _) => s'.(rw := false)
    case Uncounting =>
      s'.(working := s.working - 1,
          caller := if s.working == 1 && s.caller.Waiting? then Signalled else s.caller)
    case Leaving => s'.(alive := s.alive - 1)
    case _ => s'
  }

  // ---------- The caller ----------

  predicate CallerEnabled(s: Pool) {
    match s.caller
    case Booting => s.alive == |s.workers|
    case Idle => false
    case Locking => !s.th
    case Signalled => !s.th
    case Waiting => false
    case Clearing => !s.rw
    case Destroyed => false
    case _ => true
  }

  function CallerNext(s: Pool, t: nat): Pool {
    match s.caller
    case Booting => s.(caller := Idle)
    case PushPost => Post(s, t).(caller := PushUnlock)
    case PushUnlock => s.(rw := false, caller := Idle)
    case Locking => s.(th := true, caller := ReadLen)
    case Signalled => s.(th := true, caller := ReadLen)
    case ReadLen => s.(caller := if s.queue != [] then GoSleep else ReadWorking)
    case ReadWorking => if s.working != 0 then s.(caller := GoSleep) else s.(th := false, caller := Idle)
    case GoSleep => s.(th := false, caller := Waiting)
    case Polling => s.(caller := if s.alive != 0 then Posting else Clearing)
    case Posting => s.(v := true, workers := Broadcast(s.workers), caller := Polling)
    case Clearing =>
      if s.queue == [] then s.(v := false, caller := Destroyed)
      else s.(queue := s.queue[1..], v := s.v || |s.queue| > 1,
              log := s.log.(freed := s.log.freed + multiset{s.queue[0].id}))
    case _ => s
  }

  // ---------- Events and runs ----------

  predicate Enabled(s: Pool, e: Event) {
    match e
    case Work(i, t) =>
      WorkerEnabled(s, i) && (s.workers[i].PullPosting? || s.workers[i].PushPosting? ==> Target(s.workers, t))
    case Advance(t) => CallerEnabled(s) && (s.caller.PushPost? ==> Target(s.workers, t))
    case Submit(_) => s.caller.Idle? && !s.rw
    case Wait => s.caller.Idle?
    case Destroy => s.caller.Idle?
    case SpuriousWorker(i) => i < |s.workers| && s.workers[i].Asleep?
    case SpuriousCaller => s.caller.Waiting?
  }

  function Next(s: Pool, e: Event): Pool
    requires Enabled(s, e)
  {
    match e
    case Work(i, t) => WorkerNext(s, i, t)
    case Advance(t) => CallerNext(s, t)
    case Submit(job) => Enqueue(s, job).(caller := PushPost)
    case Wait => s.(caller := Locking)
    case Destroy => s.(keepalive := false, caller := Polling)
    case SpuriousWorker(i) => s.(workers := s.workers[i := Woken])
    case SpuriousCaller => s.(caller := Signalled)
  }

  /** thpool_init(n), once the threads exist. */
  function Init(n: nat): Pool {
    Pool(seq(n, _ => Starting), Booting, [], false, false, false, 0, 0, true,
         Log([], [], multiset{}, multiset{}, seq(n, _ => 0)))
  }

  /** The events of es, taken in order, lead from s to s'. */
  predicate Run(s: Pool, es: seq<Event>, s': Pool)
    decreases |es|
  {
    if es == [] then s == s' else Enabled(s, es[0]) && Run(Next(s, es[0]), es[1..], s')
  }

  /** Steps the pool's own code takes: no new outside call, no spurious wake-up. */
  predicate Internal(e: Event) { e.Work? || e.Advance? }
}
