/** The pool as a whole: every run without endless spurious wake-ups ends with
    `tpool_destroy` returned, and then each task has run exactly once, provided
    the client waited after its last `tpool_add`. */
module PoolProgress {
  import opened PoolModel
  import opened PoolSafety

  // ------------------------------------------------------------------ the client

  /** The client's last call before `tpool_destroy`, if any, is `tpool_wait`. */
  predicate EndsWaiting(prog: seq<Op>) {
    prog == [] || prog[|prog| - 1].Wait?
  }

  /** The client is somewhere in `prog`. */
  ghost predicate InProgram(s: State, prog: seq<Op>) {
    Adds(prog) == s.added + Adds(s.todo)
  }

  /** A client that ends with a wait destroys an empty queue. */
  ghost predicate Drained(s: State) {
    EndsWaiting(s.todo) && (s.todo == [] ==> s.queue == [])
  }

  lemma InProgramStep(s: State, a: Action, prog: seq<Op>)
    requires Enabled(s, a) && InProgram(s, prog)
    ensures InProgram(Step(s, a), prog)
  {
  }

  lemma DrainedStep(s: State, a: Action)
    requires Inv(s) && Enabled(s, a) && Drained(s)
    ensures Drained(Step(s, a))
  {
  }

  lemma {:induction false} RunKeepsProgram(s: State, acts: seq<Action>, prog: seq<Op>)
    requires Inv(s) && Allowed(s, acts) && InProgram(s, prog)
    ensures InProgram(After(s, acts), prog)
    ensures Drained(s) ==> Drained(After(s, acts))
    decreases |acts|
  {
    if acts != [] {
      StepKeepsInv(s, acts[0]);
      InProgramStep(s, acts[0], prog);
      if Drained(s) { DrainedStep(s, acts[0]); }
      RunKeepsProgram(Step(s, acts[0]), acts[1..], prog);
    }
  }

  // ------------------------------------------------------------- safety results

  /** The pool has the workers it was created with, in every reachable state. */
  lemma WorkerCount(n: nat, prog: seq<Op>, acts: seq<Action>)
    requires Allowed(Init(n, prog), acts)
    ensures |After(Init(n, prog), acts).workers| == n
  {
    SameWorkers(Init(n, prog), acts);
  }

  lemma {:induction false} SameWorkers(s: State, acts: seq<Action>)
    requires Allowed(s, acts)
    ensures |After(s, acts).workers| == |s.workers|
    decreases |acts|
  {
    if acts != [] { SameWorkers(Step(s, acts[0]), acts[1..]); }
  }

  /** In every reachable state: workers sleep only on an empty, unstopped pool; a
      client asleep on an empty queue still has a worker that will signal it; and
      tasks leave the queue in the order they were added. */
  lemma NoLostWakeup(n: nat, prog: seq<Op>, acts: seq<Action>)
    requires n > 0 && Allowed(Init(n, prog), acts)
    ensures var s := After(Init(n, prog), acts);
            && WorkersAwake(s)
            && WaiterCovered(s)
            && s.taken <= s.added <= Adds(prog)
            && s.added == s.taken + s.queue
  {
    InitInv(n, prog);
    RunKeepsInv(Init(n, prog), acts);
    RunKeepsProgram(Init(n, prog), acts, prog);
  }

  lemma {:induction false} ActiveFew(workers: seq<Worker>)
    ensures |Active(workers)| <= |workers|
  {
    if workers != [] { ActiveFew(workers[..|workers| - 1]); }
  }

  /** What a returning `tpool_wait` has seen: an empty queue. The tasks added so
      far are then the finished ones and those still being run, no more than
      there are workers. */
  lemma WaitReturns(n: nat, prog: seq<Op>, acts: seq<Action>)
    requires n > 0 && Allowed(Init(n, prog), acts)
    requires var s := After(Init(n, prog), acts);
             Enabled(s, Call) && s.todo != [] && s.todo[0].Wait? && Step(s, Call).todo != s.todo
    ensures var s := After(Init(n, prog), acts);
            && s.queue == []
            && multiset(s.added) == Active(s.workers) + multiset(s.finished)
            && (multiset(s.finished) == multiset(s.added) <==> Active(s.workers) == multiset{})
            && |s.added| <= |s.finished| + n
  {
    InitInv(n, prog);
    RunKeepsInv(Init(n, prog), acts);
    var s := After(Init(n, prog), acts);
    if s.queue == [] {
      assert s.added == s.taken;
      assert multiset(s.finished) == multiset{} + multiset(s.finished);
      ActiveFew(s.workers);
      assert |multiset(s.added)| == |Active(s.workers)| + |multiset(s.finished)|;
      if multiset(s.finished) == multiset(s.added) {
        Cancel(Active(s.workers), multiset{}, multiset(s.finished));
      }
    }
  }

  /** So `tpool_wait` can return while a task is still running. */
  lemma WaitReturnsEarly(task: Task)
    ensures var acts := [Call, Enter(0), Call];
            && Allowed(Init(1, [Add(task), Wait]), acts)
            && var s := After(Init(1, [Add(task), Wait]), acts);
               s.client.Ready? && s.todo == [] && s.workers == [Running(task)] && s.finished == []
  {
  }

  /** When `tpool_destroy` has returned all workers are gone, every task taken has
      run to completion, and the tasks added are those run and those still
      queued, counted with multiplicity. */
  lemma DestroyReturns(n: nat, prog: seq<Op>, acts: seq<Action>)
    requires n > 0 && Allowed(Init(n, prog), acts) && After(Init(n, prog), acts).client.Returned?
    ensures var s := After(Init(n, prog), acts);
            && (forall w :: 0 <= w < |s.workers| ==> s.workers[w].Exited?)
            && multiset(s.finished) == multiset(s.taken)
            && multiset(s.finished) + multiset(s.queue) == multiset(Adds(prog))
  {
    InitInv(n, prog);
    RunKeepsInv(Init(n, prog), acts);
    RunKeepsProgram(Init(n, prog), acts, prog);
    var s := After(Init(n, prog), acts);
    ActiveNone(s.workers);
    assert Adds(s.todo) == [];
    assert multiset(s.added) == multiset(s.taken) + multiset(s.queue);
  }

  /** End to end: a client that waits after its last `tpool_add` finds, when
      `tpool_destroy` returns, every task run to completion exactly once. */
  lemma ExactlyOnce(n: nat, prog: seq<Op>, acts: seq<Action>)
    requires n > 0 && Allowed(Init(n, prog), acts) && After(Init(n, prog), acts).client.Returned?
    requires EndsWaiting(prog)
    ensures multiset(After(Init(n, prog), acts).finished) == multiset(Adds(prog))
  {
    InitInv(n, prog);
    RunKeepsInv(Init(n, prog), acts);
    RunKeepsProgram(Init(n, prog), acts, prog);
    DestroyReturns(n, prog, acts);
  }

  /** After `stop` no task is dequeued. */
  lemma {:induction false} StopFreezes(s: State, acts: seq<Action>)
    requires Inv(s) && Allowed(s, acts) && s.stop
    ensures var t := After(s, acts);
            t.stop && t.queue == s.queue && t.taken == s.taken && t.added == s.added
    decreases |acts|
  {
    if acts != [] {
      StepKeepsInv(s, acts[0]);
      StopFreezes(Step(s, acts[0]), acts[1..]);
    }
  }

  /** Without spurious wake-ups of its own, a client woken inside `tpool_wait`
      finds the queue empty: it is woken once. */
  lemma {:induction false} NotifiedFindsEmpty(s: State, acts: seq<Action>)
    requires Inv(s) && Allowed(s, acts) && SpuriousClient !in acts
    requires s.client.WaitNotified? ==> s.queue == []
    ensures After(s, acts).client.WaitNotified? ==> After(s, acts).queue == []
    decreases |acts|
  {
    if acts != [] {
      StepKeepsInv(s, acts[0]);
      NotifiedFindsEmpty(Step(s, acts[0]), acts[1..]);
    }
  }

  ghost predicate InOrder(s: State) {
    |s.workers| == 1 &&
    s.taken == s.finished + (if s.workers[0].Running? then [s.workers[0].task] else [])
  }

  lemma {:induction false} OneWorker(s: State, acts: seq<Action>)
    requires Allowed(s, acts) && InOrder(s)
    ensures InOrder(After(s, acts))
    decreases |acts|
  {
    if acts != [] { OneWorker(Step(s, acts[0]), acts[1..]); }
  }

  /** A pool of one worker finishes the tasks in the order they were added. */
  lemma OneWorkerOrder(prog: seq<Op>, acts: seq<Action>)
    requires Allowed(Init(1, prog), acts)
    ensures After(Init(1, prog), acts).finished <= After(Init(1, prog), acts).added <= Adds(prog)
  {
    OneWorker(Init(1, prog), acts);
    NoLostWakeup(1, prog, acts);
  }

  // ---------------------------------------------------------------- termination

  function Weight(worker: Worker): nat {
    match worker
    case WantsLock => 1
    case Notified => 1
    case Running(_) => 4
    case AfterTask => 3
    case _ => 0
  }

  function Weights(workers: seq<Worker>): nat {
    if workers == [] then 0 else Weights(workers[..|workers| - 1]) + Weight(workers[|workers| - 1])
  }

  function ClientWeight(s: State): int {
    match s.client
    case Ready => 2 * |s.workers| + 7
    case WaitNotified => 2 * |s.workers| + 6
    case WaitAsleep => 2 * |s.workers| + 5
    case Joining(next) => |s.workers| - next + 1
    case Returned => 0
  }

  /** How much work is left: calls of the client, queued tasks, phases. */
  function Measure(s: State): int {
    (|s.workers| + 6) * |s.todo| + 4 * |s.queue| + Weights(s.workers) + ClientWeight(s)
  }

  lemma {:induction false} WeightsPut(workers: seq<Worker>, w: nat, worker: Worker)
    requires w < |workers|
    ensures Weights(workers[w := worker]) + Weight(workers[w]) == Weights(workers) + Weight(worker)
  {
    var n := |workers| - 1;
    if w < n {
      WeightsPut(workers[..n], w, worker);
      assert workers[w := worker][..n] == workers[..n][w := worker];
    } else {
      assert workers[w := worker][..n] == workers[..n];
    }
  }

  lemma {:induction false} WeightsWake(workers: seq<Worker>)
    ensures Weights(WakeAll(workers)) <= Weights(workers) + |workers|
  {
    if workers != [] {
      var n := |workers| - 1;
      WeightsWake(workers[..n]);
      assert WakeAll(workers)[..n] == WakeAll(workers[..n]);
    }
  }

  lemma MeasureEnter(s: State, w: nat)
    requires Inv(s) && Enabled(s, Enter(w))
    ensures Measure(Step(s, Enter(w))) < Measure(s)
  {
    WeightsPut(s.workers, w, Step(s, Enter(w)).workers[w]);
  }

  lemma MeasureWorker(s: State, a: Action)
    requires Inv(s) && Enabled(s, a) && !a.Call?
    ensures Measure(Step(s, a)) <= Measure(s) + (if IsSpurious(a) then 1 else -1)
  {
    var t := Step(s, a);
    match a
    case Enter(w) => MeasureEnter(s, w);
    case Finish(w) => WeightsPut(s.workers, w, AfterTask);
    case Check(w) => WeightsPut(s.workers, w, WantsLock);
    case Spurious(w) => WeightsPut(s.workers, w, Notified);
    case SpuriousClient =>
  }

  lemma Fewer(k: nat, m: nat)
    requires m > 0
    ensures k * (m - 1) + k == k * m
  {
  }

  lemma MeasureCall(s: State)
    requires Inv(s) && Enabled(s, Call)
    ensures Measure(Step(s, Call)) < Measure(s)
  {
    WeightsWake(s.workers);
    if s.todo != [] { Fewer(|s.workers| + 6, |s.todo|); }
  }

  /** Every step but a spurious wake-up uses up some of the work. */
  lemma StepMeasure(s: State, a: Action)
    requires Inv(s) && Enabled(s, a)
    ensures Measure(Step(s, a)) <= Measure(s) + (if IsSpurious(a) then 1 else -1)
  {
    if a.Call? { MeasureCall(s); } else { MeasureWorker(s, a); }
  }

  lemma MeasureNonNegative(s: State)
    requires Inv(s)
    ensures Measure(s) >= 0
  {
  }

  function CountSpurious(acts: seq<Action>): nat {
    if acts == [] then 0 else (if IsSpurious(acts[0]) then 1 else 0) + CountSpurious(acts[1..])
  }

  /** A run is at most as long as the work at its start and twice the number of
      its spurious wake-ups. */
  lemma {:induction false} RunLength(s: State, acts: seq<Action>)
    requires Inv(s) && Allowed(s, acts)
    ensures |acts| + Measure(After(s, acts)) <= Measure(s) + 2 * CountSpurious(acts)
    ensures |acts| <= Measure(s) + 2 * CountSpurious(acts)
    decreases |acts|
  {
    if acts == [] {
      MeasureNonNegative(s);
    } else {
      StepMeasure(s, acts[0]);
      StepKeepsInv(s, acts[0]);
      RunLength(Step(s, acts[0]), acts[1..]);
      RunKeepsInv(s, acts);
      MeasureNonNegative(After(s, acts));
    }
  }

  /** Until `tpool_destroy` has returned somebody can move, without waiting for a
      spurious wake-up. */
  lemma SomeoneMoves(s: State) returns (a: Action)
    requires Inv(s) && !s.client.Returned?
    ensures Enabled(s, a) && !IsSpurious(a)
  {
    match s.client
    case Ready => a := Call;
    case WaitNotified => a := Call;
    case WaitAsleep =>
      if s.queue == [] {
        var w :| 0 <= w < |s.workers| && Busy(s.workers[w]);
        a := Move(s, w);
      } else {
        a := Move(s, 0);
      }
    case Joining(k) =>
      if k < |s.workers| && !s.workers[k].Exited? { a := Move(s, k); } else { a := Call; }
    case Returned =>
  }

  lemma Move(s: State, w: nat) returns (a: Action)
    requires w < |s.workers| && !s.workers[w].Asleep? && !s.workers[w].Exited?
    ensures Enabled(s, a) && a in [Enter(w), Finish(w), Check(w)]
  {
    match s.workers[w]
    case Running(_) => a := Finish(w);
    case AfterTask => a := Check(w);
    case _ => a := Enter(w);
  }

  /** A reachable state in which only spurious wake-ups are possible is one in
      which `tpool_destroy` has returned: the pool never gets stuck. */
  lemma NeverStuck(n: nat, prog: seq<Op>, acts: seq<Action>)
    requires n > 0 && Allowed(Init(n, prog), acts)
    ensures var s := After(Init(n, prog), acts);
            (forall a :: Enabled(s, a) ==> IsSpurious(a)) <==> s.client.Returned?
  {
    InitInv(n, prog);
    RunKeepsInv(Init(n, prog), acts);
    var s := After(Init(n, prog), acts);
    if !s.client.Returned? {
      var a := SomeoneMoves(s);
    }
  }

  predicate WorkerMoves(s: State, w: nat) {
    Enabled(s, Enter(w)) || Enabled(s, Finish(w)) || Enabled(s, Check(w)) || Enabled(s, Spurious(w))
  }

  /** Nobody is held up by anything but a join: in every reachable state each
      worker that is not gone can make a move, a sleeping one by waking up for no
      reason, and so can the client until it has returned, except while it joins
      a worker that is still there. */
  lemma WhoCanMove(n: nat, prog: seq<Op>, acts: seq<Action>)
    requires n > 0 && Allowed(Init(n, prog), acts)
    ensures var s := After(Init(n, prog), acts);
            && |s.workers| == n
            && (forall w: nat :: w < n ==> (WorkerMoves(s, w) <==> !s.workers[w].Exited?))
            && (Enabled(s, Call) || Enabled(s, SpuriousClient) <==>
                  match s.client
                  case Returned => false
                  case Joining(k) => k < n ==> s.workers[k].Exited?
                  case _ => true)
  {
    InitInv(n, prog);
    RunKeepsInv(Init(n, prog), acts);
    WorkerCount(n, prog, acts);
  }

  lemma {:induction false} WeightsIdle(workers: seq<Worker>)
    requires forall w :: 0 <= w < |workers| ==> workers[w].WantsLock?
    ensures Weights(workers) == |workers|
  {
    if workers != [] { WeightsIdle(workers[..|workers| - 1]); }
  }

  /** The pool end to end, in every interleaving. A run has a bounded number of
      steps besides its spurious wake-ups; it can only stop where `tpool_destroy`
      has returned; and there, for a client that waited after its last
      `tpool_add`, the workers are gone and each task has run exactly once. */
  lemma EndToEnd(n: nat, prog: seq<Op>, acts: seq<Action>)
    requires n > 0 && Allowed(Init(n, prog), acts)
    ensures |acts| <= (n + 6) * |prog| + 3 * n + 7 + 2 * CountSpurious(acts)
    ensures var s := After(Init(n, prog), acts);
            (forall a :: Enabled(s, a) ==> IsSpurious(a)) && EndsWaiting(prog) ==>
              && s.client.Returned?
              && (forall w :: 0 <= w < |s.workers| ==> s.workers[w].Exited?)
              && multiset(s.finished) == multiset(Adds(prog))
  {
    var s := After(Init(n, prog), acts);
    InitInv(n, prog);
    WeightsIdle(Init(n, prog).workers);
    RunLength(Init(n, prog), acts);
    NeverStuck(n, prog, acts);
    if s.client.Returned? && EndsWaiting(prog) {
      DestroyReturns(n, prog, acts);
      ExactlyOnce(n, prog, acts);
    }
  }

  // ------------------------------------------------------- the wait is necessary

  lemma {:induction false} Join(s: State, a: seq<Action>, b: seq<Action>)
    requires Allowed(s, a) && Allowed(After(s, a), b)
    ensures Allowed(s, a + b) && After(s, a + b) == After(After(s, a), b)
    decreases |a|
  {
    if a == [] {
      assert a + b == b;
    } else {
      assert (a + b)[1..] == a[1..] + b;
      Join(Step(s, a[0]), a[1..], b);
    }
  }

  /** From every reachable state the pool can be driven to the end. */
  lemma {:induction false} DriveToEnd(s: State) returns (acts: seq<Action>)
    requires Inv(s)
    ensures Allowed(s, acts) && After(s, acts).client.Returned?
    decreases Measure(s)
  {
    if s.client.Returned? {
      acts := [];
    } else {
      MeasureNonNegative(s);
      var a := SomeoneMoves(s);
      StepMeasure(s, a);
      StepKeepsInv(s, a);
      var rest := DriveToEnd(Step(s, a));
      acts := [a] + rest;
    }
  }

  /** The client is about to make its last call, a `tpool_add`. */
  predicate AtLastAdd(s: State) {
    s.client.Ready? && |s.todo| == 1 && s.todo[0].Add?
  }

  lemma {:induction false} DriveToLastAdd(s: State) returns (acts: seq<Action>)
    requires Inv(s) && !EndsWaiting(s.todo)
    ensures Allowed(s, acts) && AtLastAdd(After(s, acts))
    decreases Measure(s)
  {
    if AtLastAdd(s) {
      acts := [];
    } else {
      MeasureNonNegative(s);
      var a := SomeoneMoves(s);
      StepMeasure(s, a);
      StepKeepsInv(s, a);
      var rest := DriveToLastAdd(Step(s, a));
      acts := [a] + rest;
    }
  }

  /** The last add and the destroy, before any worker gets the mutex. */
  lemma AddThenDestroy(t: State) returns (v: State)
    requires Inv(t) && AtLastAdd(t)
    ensures Allowed(t, [Call, Call]) && After(t, [Call, Call]) == v
    ensures Inv(v) && v.stop && v.queue != []
  {
    StepKeepsInv(t, Call);
    var u := Step(t, Call);
    StepKeepsInv(u, Call);
    v := Step(u, Call);
    assert [Call, Call][1..] == [Call] && [Call][1..] == [];
    assert Allowed(v, []) && After(v, []) == v;
    assert Allowed(u, [Call]) && After(u, [Call]) == v;
  }

  /** A client that destroys the pool right after a `tpool_add` can lose tasks:
      `stop` is tested before the queue. */
  lemma LosesTask(n: nat, prog: seq<Op>) returns (acts: seq<Action>)
    requires n > 0 && !EndsWaiting(prog)
    ensures Allowed(Init(n, prog), acts) && After(Init(n, prog), acts).client.Returned?
    ensures multiset(After(Init(n, prog), acts).finished) != multiset(Adds(prog))
  {
    var s := Init(n, prog);
    InitInv(n, prog);
    var first := DriveToLastAdd(s);
    RunKeepsInv(s, first);
    var v := AddThenDestroy(After(s, first));
    var last := DriveToEnd(v);
    StopFreezes(v, last);
    Join(After(s, first), [Call, Call], last);
    Join(s, first, [Call, Call] + last);
    acts := first + ([Call, Call] + last);
    DestroyReturns(n, prog, acts);
    QueueLeft(After(s, acts), prog);
  }

  lemma QueueLeft(s: State, prog: seq<Op>)
    requires multiset(s.finished) + multiset(s.queue) == multiset(Adds(prog)) && s.queue != []
    ensures multiset(s.finished) != multiset(Adds(prog))
  {
    assert |multiset(s.queue)| > 0;
    assert |multiset(Adds(prog))| > |multiset(s.finished)|;
  }

  ghost predicate AlwaysExactlyOnce(n: nat, prog: seq<Op>) {
    forall acts :: Allowed(Init(n, prog), acts) && After(Init(n, prog), acts).client.Returned? ==>
      multiset(After(Init(n, prog), acts).finished) == multiset(Adds(prog))
  }

  /** Exactly the clients that wait after their last `tpool_add` are guaranteed
      that every task has run when `tpool_destroy` returns. */
  lemma ExactlyOnceIff(n: nat, prog: seq<Op>)
    requires n > 0
    ensures AlwaysExactlyOnce(n, prog) <==> EndsWaiting(prog)
  {
    if EndsWaiting(prog) {
      forall acts | Allowed(Init(n, prog), acts) && After(Init(n, prog), acts).client.Returned?
        ensures multiset(After(Init(n, prog), acts).finished) == multiset(Adds(prog))
      {
        ExactlyOnce(n, prog, acts);
      }
    } else {
      var acts := LosesTask(n, prog);
    }
  }
}
