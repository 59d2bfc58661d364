/** What `tpool_wait` promises. It returns as soon as the queue is empty, so one
    that comes after any `tpool_add` can return while a task is still running. */
module PoolWaits {
  import opened PoolModel
  import opened PoolSafety
  import opened PoolProgress

  /** The client's next action is the return from a `tpool_wait`. */
  predicate Returning(s: State) {
    Enabled(s, Call) && s.todo != [] && s.todo[0].Wait? && Step(s, Call).todo != s.todo
  }

  /** The same, with `m` calls to go including this one. */
  predicate ReturningAt(s: State, m: int) {
    Returning(s) && |s.todo| == m
  }

  predicate Complete(s: State) {
    multiset(s.finished) == multiset(s.added)
  }

  /** Whenever call `j` of the client, a wait, returns, all tasks have been run. */
  ghost predicate WaitCompletes(n: nat, prog: seq<Op>, j: nat) {
    forall acts :: Allowed(Init(n, prog), acts) && ReturningAt(After(Init(n, prog), acts), |prog| - j) ==>
      Complete(After(Init(n, prog), acts))
  }

  /** Whenever any wait of the client returns, all tasks have been run. */
  ghost predicate WaitsComplete(n: nat, prog: seq<Op>) {
    forall acts :: Allowed(Init(n, prog), acts) && Returning(After(Init(n, prog), acts)) ==>
      Complete(After(Init(n, prog), acts))
  }

  // ------------------------------------------------------------ the calls so far

  ghost predicate Follows(s: State, prog: seq<Op>) {
    && |s.todo| <= |prog|
    && s.todo == prog[|prog| - |s.todo|..]
    && s.added == Adds(prog[..|prog| - |s.todo|])
  }

  lemma {:induction false} AddsSnoc(prog: seq<Op>, op: Op)
    ensures Adds(prog + [op]) == Adds(prog) + (if op.Add? then [op.task] else [])
  {
    if prog == [] {
      assert prog + [op] == [op];
    } else {
      AddsSnoc(prog[1..], op);
      assert (prog + [op])[1..] == prog[1..] + [op];
    }
  }

  /** A step makes at most one call. */
  lemma OneCall(s: State, a: Action)
    requires Enabled(s, a)
    ensures var t := Step(s, a);
            || (t.todo == s.todo && t.added == s.added)
            || (s.todo != [] && t.todo == s.todo[1..] &&
                t.added == s.added + (if s.todo[0].Add? then [s.todo[0].task] else []))
  {
  }

  lemma FollowsStep(s: State, a: Action, prog: seq<Op>)
    requires Enabled(s, a) && Follows(s, prog)
    ensures Follows(Step(s, a), prog)
  {
    var t, k := Step(s, a), |prog| - |s.todo|;
    OneCall(s, a);
    if t.todo != s.todo {
      AddsSnoc(prog[..k], prog[k]);
      assert prog[..k + 1] == prog[..k] + [prog[k]];
    }
  }

  lemma {:induction false} RunFollows(s: State, acts: seq<Action>, prog: seq<Op>)
    requires Allowed(s, acts) && Follows(s, prog)
    ensures Follows(After(s, acts), prog)
    decreases |acts|
  {
    if acts != [] {
      FollowsStep(s, acts[0], prog);
      RunFollows(Step(s, acts[0]), acts[1..], prog);
    }
  }

  lemma {:induction false} NoAdds(prog: seq<Op>)
    requires forall i :: 0 <= i < |prog| ==> prog[i].Wait?
    ensures Adds(prog) == []
  {
    if prog != [] { NoAdds(prog[1..]); }
  }

  // ------------------------------------------------------- an early return

  lemma {:induction false} ActiveHas(workers: seq<Worker>, w: nat)
    requires w < |workers| && workers[w].Running?
    ensures |Active(workers)| > 0
  {
    if w < |workers| - 1 { ActiveHas(workers[..|workers| - 1], w); }
  }

  /** A step of somebody, which makes at most one call of the client. */
  lemma Advance(s: State) returns (a: Action)
    requires Inv(s) && s.todo != []
    ensures Enabled(s, a) && Inv(Step(s, a)) && 0 <= Measure(Step(s, a)) < Measure(s)
    ensures Step(s, a).todo == s.todo || Step(s, a).todo == s.todo[1..]
  {
    a := SomeoneMoves(s);
    StepMeasure(s, a);
    StepKeepsInv(s, a);
    MeasureNonNegative(Step(s, a));
  }

  /** The pool can be driven to any `tpool_add` the client is still to make. */
  lemma {:induction false} DriveToAdd(s: State, m: nat) returns (acts: seq<Action>)
    requires Inv(s) && 0 < m <= |s.todo| && s.todo[|s.todo| - m].Add?
    ensures Allowed(s, acts) && After(s, acts).client.Ready? && After(s, acts).todo == s.todo[|s.todo| - m..]
    decreases Measure(s)
  {
    if |s.todo| == m {
      acts := [];
    } else {
      var a := Advance(s);
      var rest := DriveToAdd(Step(s, a), m);
      acts := [a] + rest;
      assert acts[1..] == rest;
    }
  }

  /** Worker 0 alone empties the queue, up to running the last task of it. */
  lemma {:induction false} DrainByOne(s: State) returns (acts: seq<Action>)
    requires Inv(s) && s.client.Ready? && (s.queue != [] || s.workers[0].Running?)
    ensures Allowed(s, acts)
    ensures var t := After(s, acts);
            Inv(t) && t.client.Ready? && t.todo == s.todo && t.queue == [] && t.workers[0].Running?
    decreases Measure(s)
  {
    if s.queue == [] {
      acts := [];
    } else {
      MeasureNonNegative(s);
      var a := Move(s, 0);
      StepMeasure(s, a);
      StepKeepsInv(s, a);
      var rest := DrainByOne(Step(s, a));
      acts := [a] + rest;
    }
  }

  lemma Prepend(s: State, a: Action, u: State, rest: seq<Action>)
    requires Enabled(s, a) && Step(s, a) == u && Allowed(u, rest)
    ensures Allowed(s, [a] + rest) && After(s, [a] + rest) == After(u, rest)
  {
    assert ([a] + rest)[1..] == rest;
  }

  lemma WaitStep(s: State)
    requires s.client.Ready? && s.queue == [] && s.todo != [] && s.todo[0].Wait?
    ensures Returning(s) && Step(s, Call) == s.(todo := s.todo[1..])
  {
  }

  /** With the queue empty every wait returns at once. */
  lemma {:induction false} WaitOn(s: State, k: nat) returns (acts: seq<Action>)
    requires s.client.Ready? && s.queue == [] && k < |s.todo|
    requires forall i :: 0 <= i <= k ==> s.todo[i].Wait?
    ensures Allowed(s, acts) && After(s, acts) == s.(todo := s.todo[k..])
    decreases k
  {
    if k == 0 {
      acts := [];
      assert s.todo[0..] == s.todo;
    } else {
      WaitStep(s);
      var u := s.(todo := s.todo[1..]);
      var rest := WaitOn(u, k - 1);
      Prepend(s, Call, u, rest);
      acts := [Call] + rest;
      assert u.todo[k - 1..] == s.todo[k..];
    }
  }

  lemma StillRunning(s: State)
    requires Inv(s) && s.queue == [] && s.workers[0].Running?
    ensures !Complete(s)
  {
    ActiveHas(s.workers, 0);
    assert |multiset(s.added)| == |Active(s.workers)| + |multiset(s.finished)|;
  }

  /** From the add on: drain the queue to the last task, then return from `k`
      further waits. */
  lemma AddAndWait(t: State, k: nat) returns (acts: seq<Action>)
    requires Inv(t) && t.client.Ready? && k + 1 < |t.todo| && t.todo[0].Add?
    requires forall i :: 1 <= i <= k + 1 ==> t.todo[i].Wait?
    ensures Allowed(t, acts) && ReturningAt(After(t, acts), |t.todo| - k - 1) && !Complete(After(t, acts))
  {
    StepKeepsInv(t, Call);
    var u := Step(t, Call);
    var drain := DrainByOne(u);
    var v := After(u, drain);
    var waits := WaitOn(v, k);
    StillRunning(v);
    WaitStep(After(v, waits));
    Join(u, drain, waits);
    acts := [Call] + (drain + waits);
    assert acts[1..] == drain + waits;
  }

  /** A wait at `j` with an add before it at `i`, and only waits between. */
  lemma ReturnsEarly(n: nat, prog: seq<Op>, i: nat, j: nat) returns (acts: seq<Action>)
    requires n > 0 && i < j < |prog| && prog[i].Add? && forall k :: i < k <= j ==> prog[k].Wait?
    ensures Allowed(Init(n, prog), acts)
    ensures ReturningAt(After(Init(n, prog), acts), |prog| - j) && !Complete(After(Init(n, prog), acts))
  {
    var s := Init(n, prog);
    InitInv(n, prog);
    var first := DriveToAdd(s, |prog| - i);
    RunKeepsInv(s, first);
    var rest := AddAndWait(After(s, first), j - i - 1);
    Join(s, first, rest);
    acts := first + rest;
  }

  // --------------------------------------------------------------- the condition

  /** A wait is sure to find all tasks run exactly when no `tpool_add` comes
      before it: when there is nothing to wait for. */
  lemma WaitCompletesIff(n: nat, prog: seq<Op>, j: nat)
    requires n > 0 && j < |prog| && prog[j].Wait?
    ensures WaitCompletes(n, prog, j) <==> forall i :: 0 <= i < j ==> prog[i].Wait?
  {
    if forall i :: 0 <= i < j ==> prog[i].Wait? {
      forall acts | Allowed(Init(n, prog), acts) && ReturningAt(After(Init(n, prog), acts), |prog| - j)
        ensures Complete(After(Init(n, prog), acts))
      {
        InitInv(n, prog);
        RunKeepsInv(Init(n, prog), acts);
        RunFollows(Init(n, prog), acts, prog);
        NoAdds(prog[..j]);
      }
    } else {
      var i := LastAdd(prog, j);
      var acts := ReturnsEarly(n, prog, i, j);
    }
  }

  lemma {:induction false} LastAdd(prog: seq<Op>, j: nat) returns (i: nat)
    requires j <= |prog| && exists k :: 0 <= k < j && prog[k].Add?
    ensures i < j && prog[i].Add? && forall k :: i < k < j ==> prog[k].Wait?
  {
    i := j - 1;
    if !prog[i].Add? { i := LastAdd(prog, j - 1); }
  }

  lemma {:induction false} OnlyWaitsBefore(prog: seq<Op>, j: nat)
    requires j < |prog| && prog[j].Wait?
    requires !(exists i :: 0 <= i && i + 1 < |prog| && prog[i].Add? && prog[i + 1].Wait?)
    ensures forall k :: 0 <= k < j ==> prog[k].Wait?
  {
    if j > 0 {
      assert !prog[j - 1].Add? by { var i := j - 1; assert prog[i + 1] == prog[j]; }
      OnlyWaitsBefore(prog, j - 1);
    }
  }

  /** So every wait of a client is sure to find all tasks run exactly when none
      of them directly follows a `tpool_add`. */
  lemma WaitsCompleteIff(n: nat, prog: seq<Op>)
    requires n > 0
    ensures WaitsComplete(n, prog) <==> !(exists i :: 0 <= i && i + 1 < |prog| && prog[i].Add? && prog[i + 1].Wait?)
  {
    if i :| 0 <= i && i + 1 < |prog| && prog[i].Add? && prog[i + 1].Wait? {
      var acts := ReturnsEarly(n, prog, i, i + 1);
    } else {
      forall acts | Allowed(Init(n, prog), acts) && Returning(After(Init(n, prog), acts))
        ensures Complete(After(Init(n, prog), acts))
      {
        RunFollows(Init(n, prog), acts, prog);
        var j := |prog| - |After(Init(n, prog), acts).todo|;
        OnlyWaitsBefore(prog, j);
        WaitCompletesIff(n, prog, j);
        assert ReturningAt(After(Init(n, prog), acts), |prog| - j);
      }
    }
  }

  // ------------------------------------------------------------- all workers at once

  /** The first `k` workers each run a task, the others are about to look. */
  ghost predicate Filled(s: State, k: nat) {
    && k <= |s.workers| && s.client.Ready? && s.queue == [] && !s.stop
    && (forall w :: 0 <= w < k ==> s.workers[w].Running?)
    && (forall w :: k <= w < |s.workers| ==> s.workers[w].WantsLock?)
  }

  /** The client adds a task and the next worker takes it. */
  lemma AddAndTake(s: State, k: nat) returns (v: State)
    requires Filled(s, k) && k < |s.workers| && s.todo != [] && s.todo[0].Add?
    ensures Allowed(s, [Call, Enter(k)]) && After(s, [Call, Enter(k)]) == v
    ensures Filled(v, k + 1) && v.todo == s.todo[1..] && v.finished == s.finished
    ensures |v.added| == |s.added| + 1 && |v.workers| == |s.workers|
  {
    var u := Step(s, Call);
    assert WakeAll(s.workers) == s.workers;
    v := Step(u, Enter(k));
    assert [Call, Enter(k)][1..] == [Enter(k)] && [Enter(k)][1..] == [];
    assert Allowed(v, []) && After(v, []) == v;
    assert Allowed(u, [Enter(k)]) && After(u, [Enter(k)]) == v;
  }

  lemma {:induction false} FillWorkers(s: State, k: nat) returns (acts: seq<Action>)
    requires Filled(s, k) && |Adds(s.todo)| >= |s.workers| - k
    ensures Allowed(s, acts)
    ensures var t := After(s, acts);
            && |t.workers| == |s.workers| && Filled(t, |s.workers|)
            && t.finished == s.finished && |t.added| == |s.added| + |s.workers| - k
    decreases |s.todo|
  {
    if k == |s.workers| {
      acts := [];
    } else if s.todo[0].Add? {
      var v := AddAndTake(s, k);
      var rest := FillWorkers(v, k + 1);
      Join(s, [Call, Enter(k)], rest);
      acts := [Call, Enter(k)] + rest;
    } else {
      WaitStep(s);
      var rest := FillWorkers(Step(s, Call), k);
      acts := [Call] + rest;
      assert acts[1..] == rest;
    }
  }

  /** For every client with at least as many tasks as the pool has workers, some
      interleaving has all workers run one at the same time, with none finished
      yet: as many unfinished tasks behind an empty queue as there can be. */
  lemma AllAtOnce(n: nat, prog: seq<Op>) returns (acts: seq<Action>)
    requires |Adds(prog)| >= n
    ensures Allowed(Init(n, prog), acts)
    ensures var s := After(Init(n, prog), acts);
            && |s.workers| == n && (forall w :: 0 <= w < n ==> s.workers[w].Running?)
            && s.queue == [] && s.finished == [] && |s.added| == n
  {
    acts := FillWorkers(Init(n, prog), 0);
  }

  /** With all workers busy, the first one finishes its task and takes the next. */
  lemma AddAndSwap(s: State) returns (v: State)
    requires Filled(s, |s.workers|) && s.workers != [] && s.todo != [] && s.todo[0].Add?
    ensures var acts := [Call, Finish(0), Check(0), Enter(0)]; Allowed(s, acts) && After(s, acts) == v
    ensures Filled(v, |s.workers|) && v.todo == s.todo[1..] && |v.workers| == |s.workers|
    ensures |v.added| == |s.added| + 1 && |v.finished| == |s.finished| + 1
  {
    var u := Step(s, Call);
    assert WakeAll(s.workers) == s.workers;
    var f := Step(u, Finish(0));
    var c := Step(f, Check(0));
    v := Step(c, Enter(0));
    assert [Enter(0)][1..] == [] && [Check(0), Enter(0)][1..] == [Enter(0)];
    assert [Finish(0), Check(0), Enter(0)][1..] == [Check(0), Enter(0)];
    assert [Call, Finish(0), Check(0), Enter(0)][1..] == [Finish(0), Check(0), Enter(0)];
    assert Allowed(v, []) && After(v, []) == v;
    assert Allowed(c, [Enter(0)]) && After(c, [Enter(0)]) == v;
    assert Allowed(f, [Check(0), Enter(0)]) && After(f, [Check(0), Enter(0)]) == v;
  }

  /** The next `d` calls of the client, with as many workers busy as there can be. */
  lemma {:induction false} FillTo(s: State, k: nat, d: nat) returns (acts: seq<Action>)
    requires Filled(s, k) && s.workers != [] && d <= |s.todo| && |s.added| == |s.finished| + k
    requires k + |Adds(s.todo[..d])| >= |s.workers|
    ensures Allowed(s, acts)
    ensures var t := After(s, acts);
            && |t.workers| == |s.workers| && Filled(t, |s.workers|) && t.todo == s.todo[d..]
            && |t.added| == |t.finished| + |s.workers|
    decreases d
  {
    if d == 0 {
      acts := [];
    } else {
      var rest := s.todo[1..];
      assert s.todo[..d][1..] == rest[..d - 1] && s.todo[d..] == rest[d - 1..];
      if s.todo[0].Wait? {
        WaitStep(s);
        var more := FillTo(Step(s, Call), k, d - 1);
        acts := [Call] + more;
        assert acts[1..] == more;
      } else if k < |s.workers| {
        var v := AddAndTake(s, k);
        var more := FillTo(v, k + 1, d - 1);
        Join(s, [Call, Enter(k)], more);
        acts := [Call, Enter(k)] + more;
      } else {
        var v := AddAndSwap(s);
        var more := FillTo(v, k, d - 1);
        Join(s, [Call, Finish(0), Check(0), Enter(0)], more);
        acts := [Call, Finish(0), Check(0), Enter(0)] + more;
      }
    }
  }

  /** A wait can return with as many tasks unfinished as the pool has workers, if
      at least so many have been added before it. */
  lemma WaitTight(n: nat, prog: seq<Op>, j: nat) returns (acts: seq<Action>)
    requires n > 0 && j < |prog| && prog[j].Wait? && |Adds(prog[..j])| >= n
    ensures Allowed(Init(n, prog), acts)
    ensures var s := After(Init(n, prog), acts);
            ReturningAt(s, |prog| - j) && |s.added| == |s.finished| + n
  {
    acts := FillTo(Init(n, prog), 0, j);
    WaitStep(After(Init(n, prog), acts));
  }
}
