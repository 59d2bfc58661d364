/** What holds in every reachable state of the pool: no wake-up is lost, no task
    is lost, duplicated or reordered, and after `stop` no task is started. */
module PoolSafety {
  import opened PoolModel

  /** The tasks being run now. */
  function Active(workers: seq<Worker>): multiset<Task> {
    if workers == [] then multiset{}
    else
      var n := |workers| - 1;
      Active(workers[..n]) + (if workers[n].Running? then multiset{workers[n].task} else multiset{})
  }

  function TaskOf(worker: Worker): multiset<Task> {
    if worker.Running? then multiset{worker.task} else multiset{}
  }

  predicate Busy(worker: Worker) {
    worker.Running? || worker.AfterTask?
  }

  /** No lost wake-up for workers: a worker sleeps only while there is nothing
      to do, although `tpool_add` broadcasts only for the first task. */
  ghost predicate WorkersAwake(s: State) {
    forall w :: 0 <= w < |s.workers| && s.workers[w].Asleep? ==> s.queue == [] && !s.stop
  }

  /** No lost wake-up for the client: if it sleeps on an empty queue, a worker is
      still to re-check and signal. */
  ghost predicate WaiterCovered(s: State) {
    s.client.WaitAsleep? && s.queue == [] ==> exists w :: 0 <= w < |s.workers| && Busy(s.workers[w])
  }

  ghost predicate Conserved(s: State) {
    && s.added == s.taken + s.queue
    && multiset(s.taken) == Active(s.workers) + multiset(s.finished)
  }

  /** The workers `tpool_destroy` has joined. */
  function Joined(s: State): nat {
    match s.client
    case Joining(next) => next
    case Returned => |s.workers|
    case _ => 0
  }

  ghost predicate Phases(s: State) {
    && (s.stop <==> s.client.Joining? || s.client.Returned?)
    && (s.stop ==> s.todo == [])
    && (s.client.WaitAsleep? || s.client.WaitNotified? ==> s.todo != [] && s.todo[0].Wait?)
    && (forall w :: 0 <= w < |s.workers| && s.workers[w].Exited? ==> s.stop)
    && Joined(s) <= |s.workers|
    && (forall w :: 0 <= w < Joined(s) ==> s.workers[w].Exited?)
  }

  ghost predicate Inv(s: State) {
    && |s.workers| > 0
    && WorkersAwake(s)
    && WaiterCovered(s)
    && Conserved(s)
    && Phases(s)
  }

  // ----------------------------------------------------------------- Active

  lemma AddToBoth<T>(a: multiset<T>, b: multiset<T>, c: multiset<T>, d: multiset<T>, e: multiset<T>)
    requires a + b == c + d
    ensures a + e + b == c + e + d
  {
    assert a + e + b == (a + b) + e;
  }

  lemma {:induction false} ActivePut(workers: seq<Worker>, w: nat, worker: Worker)
    requires w < |workers|
    ensures Active(workers[w := worker]) + TaskOf(workers[w]) == Active(workers) + TaskOf(worker)
  {
    var n := |workers| - 1;
    if w < n {
      ActivePut(workers[..n], w, worker);
      assert workers[w := worker][..n] == workers[..n][w := worker];
      var before, after := Active(workers[..n]), Active(workers[..n][w := worker]);
      AddToBoth(after, TaskOf(workers[w]), before, TaskOf(worker), TaskOf(workers[n]));
    } else {
      assert workers[w := worker][..n] == workers[..n];
    }
  }

  lemma {:induction false} ActiveWake(workers: seq<Worker>)
    ensures Active(WakeAll(workers)) == Active(workers)
  {
    if workers != [] {
      var n := |workers| - 1;
      ActiveWake(workers[..n]);
      assert WakeAll(workers)[..n] == WakeAll(workers[..n]);
    }
  }

  lemma {:induction false} ActiveNone(workers: seq<Worker>)
    requires forall w :: 0 <= w < |workers| ==> !workers[w].Running?
    ensures Active(workers) == multiset{}
  {
    if workers != [] { ActiveNone(workers[..|workers| - 1]); }
  }

  // ------------------------------------------------------------ preservation

  lemma InitInv(n: nat, prog: seq<Op>)
    requires n > 0
    ensures Inv(Init(n, prog))
  {
    ActiveNone(Init(n, prog).workers);
  }

  /** What dequeuing and finishing do to the books. */
  lemma ConservedPut(s: State, t: State, w: nat, worker: Worker)
    requires Conserved(s) && w < |s.workers| && t.workers == s.workers[w := worker]
    requires t.added == s.added == t.taken + t.queue
    requires multiset(t.taken) + TaskOf(s.workers[w]) + multiset(s.finished)
          == multiset(s.taken) + TaskOf(worker) + multiset(t.finished)
    ensures Conserved(t)
  {
    ActivePut(s.workers, w, worker);
    var before, after := Active(s.workers), Active(t.workers);
    var out, back := TaskOf(s.workers[w]), TaskOf(worker);
    var done, done' := multiset(s.finished), multiset(t.finished);
    assert multiset(t.taken) + (out + done) == multiset(t.taken) + out + done;
    assert (before + done) + back + done' == (before + back) + done + done';
    assert (after + out) + done + done' == (after + done') + (out + done);
    Cancel(multiset(t.taken), after + done', out + done);
  }

  lemma Cancel<T>(a: multiset<T>, b: multiset<T>, c: multiset<T>)
    requires a + c == b + c
    ensures a == b
  {
    assert a == (a + c) - c;
    assert b == (b + c) - c;
  }

  lemma TakeFirst(s: State, t: State, w: nat)
    requires Conserved(s) && s.queue != [] && w < |s.workers| && TaskOf(s.workers[w]) == multiset{}
    requires t == Put(s, w, Running(s.queue[0])).(queue := s.queue[1..], taken := s.taken + [s.queue[0]])
    ensures Conserved(t)
  {
    assert s.queue == [s.queue[0]] + t.queue;
    assert multiset(t.taken) == multiset(s.taken) + multiset{s.queue[0]};
    ConservedPut(s, t, w, t.workers[w]);
  }

  lemma ConservedEnter(s: State, w: nat)
    requires Inv(s) && Enabled(s, Enter(w))
    ensures Conserved(Step(s, Enter(w)))
  {
    var t := Step(s, Enter(w));
    assert TaskOf(s.workers[w]) == multiset{};
    if s.queue != [] && !s.stop {
      TakeFirst(s, t, w);
    } else {
      assert TaskOf(t.workers[w]) == multiset{};
      ConservedPut(s, t, w, t.workers[w]);
    }
  }

  lemma ConservedFinish(s: State, w: nat)
    requires Inv(s) && Enabled(s, Finish(w))
    ensures Conserved(Step(s, Finish(w)))
  {
    var t := Step(s, Finish(w));
    assert multiset(t.finished) == multiset(s.finished) + TaskOf(s.workers[w]);
    ConservedPut(s, t, w, AfterTask);
  }

  lemma ConservedCall(s: State)
    requires Inv(s) && Enabled(s, Call)
    ensures Conserved(Step(s, Call))
  {
    ActiveWake(s.workers);
  }

  lemma ConservedStep(s: State, a: Action)
    requires Inv(s) && Enabled(s, a)
    ensures Conserved(Step(s, a))
  {
    match a
    case Enter(w) => ConservedEnter(s, w);
    case Finish(w) => ConservedFinish(s, w);
    case Check(w) => ConservedPut(s, Step(s, a), w, WantsLock);
    case Spurious(w) => ConservedPut(s, Step(s, a), w, Notified);
    case SpuriousClient =>
    case Call => ConservedCall(s);
  }

  lemma WaiterStep(s: State, a: Action)
    requires Inv(s) && Enabled(s, a)
    ensures WaiterCovered(Step(s, a))
  {
    var t := Step(s, a);
    if t.client.WaitAsleep? && t.queue == [] && s.queue == [] {
      var w :| 0 <= w < |s.workers| && Busy(s.workers[w]);
      assert a != Check(w);
      assert Busy(t.workers[w]);
    } else if t.client.WaitAsleep? && t.queue == [] {
      assert a.Enter? && Busy(t.workers[a.w]);
    }
  }

  lemma AwakeStep(s: State, a: Action)
    requires Inv(s) && Enabled(s, a)
    ensures WorkersAwake(Step(s, a))
  {
  }

  /** A broadcast for a task that is not the first would wake nobody. */
  lemma FirstTaskWakes(s: State)
    requires Inv(s) && s.queue != []
    ensures WakeAll(s.workers) == s.workers
  {
    assert forall w :: 0 <= w < |s.workers| ==> !s.workers[w].Asleep?;
  }

  lemma PhasesStep(s: State, a: Action)
    requires Inv(s) && Enabled(s, a)
    ensures Phases(Step(s, a)) && |Step(s, a).workers| == |s.workers|
  {
  }

  lemma StepKeepsInv(s: State, a: Action)
    requires Inv(s) && Enabled(s, a)
    ensures Inv(Step(s, a))
  {
    ConservedStep(s, a);
    WaiterStep(s, a);
    AwakeStep(s, a);
    PhasesStep(s, a);
  }

  lemma {:induction false} RunKeepsInv(s: State, acts: seq<Action>)
    requires Inv(s) && Allowed(s, acts)
    ensures Inv(After(s, acts)) && |After(s, acts).workers| == |s.workers|
    decreases |acts|
  {
    if acts != [] {
      StepKeepsInv(s, acts[0]);
      RunKeepsInv(Step(s, acts[0]), acts[1..]);
    }
  }
}
