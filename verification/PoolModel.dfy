/** The thread pool of HW4 as an interleaving transition system: one client that
    adds tasks, waits and finally destroys the pool, and any number of workers.
    Each critical section is one step, except that `pthread_cond_wait` ends one
    step and starts another; a sleeper may also wake up for no reason. */
module PoolModel {

  datatype Task = Task(func: int, arg: int)

  /** Where a worker is: about to lock the mutex at the top of its loop, asleep
      on `queue_not_empty`, woken and about to relock, running a task, about to
      lock for the re-check after a task, or gone. */
  datatype Worker = WantsLock | Asleep | Notified | Running(task: Task) | AfterTask | Exited

  /** What the client still calls before `tpool_destroy`. */
  datatype Op = Add(task: Task) | Wait

  /** Where the client is: between calls, asleep on `queue_empty` inside
      `tpool_wait`, woken and about to relock, joining worker `next`, or
      returned from `tpool_destroy`. */
  datatype Client = Ready | WaitAsleep | WaitNotified | Joining(next: nat) | Returned

  /** The shared pool, the threads, and three histories: the tasks added, the
      tasks dequeued and the tasks run to completion, each in order. */
  datatype State = State(
    queue: seq<Task>, stop: bool, workers: seq<Worker>, client: Client, todo: seq<Op>,
    added: seq<Task>, taken: seq<Task>, finished: seq<Task>)

  // --------------------------------------------------------- critical sections

  /** `tpool_add`: the new queue, and whether `queue_not_empty` is broadcast. */
  function AddSection(queue: seq<Task>, task: Task): (seq<Task>, bool) {
    (queue + [task], queue == [])
  }

  datatype Decision = Sleep | Leave | Take(task: Task)

  /** A worker with the mutex at the wait loop: what it does, and the queue it
      leaves. */
  function WorkerSection(queue: seq<Task>, stop: bool): (Decision, seq<Task>) {
    if queue == [] && !stop then (Sleep, queue)
    else if stop then (Leave, queue)
    else (Take(queue[0]), queue[1..])
  }

  function WakeAll(workers: seq<Worker>): (r: seq<Worker>)
    ensures |r| == |workers|
  {
    seq(|workers|, w requires 0 <= w < |workers| => if workers[w].Asleep? then Notified else workers[w])
  }

  // --------------------------------------------------------------------- steps

  datatype Action =
    | Enter(w: nat)      // lock and look at the queue
    | Finish(w: nat)     // its task returns
    | Check(w: nat)      // lock and re-check after a task
    | Spurious(w: nat)   // wake up without a signal
    | SpuriousClient
    | Call               // the client's next critical section or join

  predicate Enabled(s: State, a: Action) {
    match a
    case Enter(w) => w < |s.workers| && (s.workers[w].WantsLock? || s.workers[w].Notified?)
    case Finish(w) => w < |s.workers| && s.workers[w].Running?
    case Check(w) => w < |s.workers| && s.workers[w].AfterTask?
    case Spurious(w) => w < |s.workers| && s.workers[w].Asleep?
    case SpuriousClient => s.client.WaitAsleep?
    case Call =>
      match s.client
      case Ready => true
      case WaitNotified => s.todo != [] && s.todo[0].Wait?
      case Joining(k) => k < |s.workers| ==> s.workers[k].Exited?
      case _ => false
  }

  function Put(s: State, w: nat, worker: Worker): State
    requires w < |s.workers|
  {
    s.(workers := s.workers[w := worker])
  }

  function Step(s: State, a: Action): State
    requires Enabled(s, a)
  {
    match a
    case Enter(w) =>
      var (decision, rest) := WorkerSection(s.queue, s.stop);
      (match decision
       case Sleep => Put(s, w, Asleep)
       case Leave => Put(s, w, Exited)
       case Take(task) => Put(s, w, Running(task)).(queue := rest, taken := s.taken + [task]))
    case Finish(w) => Put(s, w, AfterTask).(finished := s.finished + [s.workers[w].task])
    case Check(w) =>
      Put(s, w, WantsLock)
        .(client := if s.queue == [] && s.client.WaitAsleep? then WaitNotified else s.client)
    case Spurious(w) => Put(s, w, Notified)
    case SpuriousClient => s.(client := WaitNotified)
    case Call =>
      match s.client
      case Joining(k) => s.(client := if k < |s.workers| then Joining(k + 1) else Returned)
      case _ =>
        if s.todo == [] then
          s.(stop := true, workers := WakeAll(s.workers), client := Joining(0))
        else
          match s.todo[0]
          case Add(task) =>
            var (queue, broadcast) := AddSection(s.queue, task);
            s.(queue := queue, workers := if broadcast then WakeAll(s.workers) else s.workers,
               todo := s.todo[1..], added := s.added + [task])
          case Wait =>
            if s.queue == [] then s.(client := Ready, todo := s.todo[1..])
            else s.(client := WaitAsleep)
  }

  /** `tpool_init(n)` for a client that will make the calls `prog`. */
  function Init(n: nat, prog: seq<Op>): State {
    State([], false, seq(n, _ => WantsLock), Ready, prog, [], [], [])
  }

  // ---------------------------------------------------------------------- runs

  predicate Allowed(s: State, acts: seq<Action>)
    decreases |acts|
  {
    acts == [] || (Enabled(s, acts[0]) && Allowed(Step(s, acts[0]), acts[1..]))
  }

  function After(s: State, acts: seq<Action>): State
    requires Allowed(s, acts)
    decreases |acts|
  {
    if acts == [] then s else After(Step(s, acts[0]), acts[1..])
  }

  function Adds(prog: seq<Op>): seq<Task> {
    if prog == [] then []
    else (if prog[0].Add? then [prog[0].task] else []) + Adds(prog[1..])
  }

  predicate IsSpurious(a: Action) {
    a.Spurious? || a.SpuriousClient?
  }
}
