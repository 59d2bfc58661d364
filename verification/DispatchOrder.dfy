/** Who runs next. What a stretch and the scheduler entry after it leave in each
    slot, stated on the queues before, for each way a stretch can end. */
module DispatchOrder {
  import opened ThreadModel
  import opened ThreadQueues
  import opened LockDiscipline

  // ------------------------------------------------- how the next stretch will end

  /** The running thread is in its last round, or about to unlock. */
  predicate Leaves(t: Thread) {
    if t.kind.BankOperation? then t.at.AtYield2? else (if t.at.AtStart? then 1 else t.i + 1) == t.arg
  }

  /** It is about to call `lock()` while the lock is taken. */
  predicate MustWait(t: Thread, owner: int) {
    t.kind.BankOperation? && t.at.AtStart? && owner != NO_OWNER
  }

  /** The last of `q` has moved to slot `k`; everything else stands where it did. */
  ghost predicate Vacated(q: seq<Thread>, r: seq<Thread>, k: nat) {
    && |r| == |q| - 1
    && forall j :: 0 <= j < |r| ==> r[j] == if j == k then q[|q| - 1] else q[j]
  }

  /** The cursor stays at the slot, which now holds another thread, unless it was
      the last. */
  function NextAfterLeaving(s: State): int {
    if s.cur == |s.rq| - 1 then 0 else s.cur
  }

  /** Only the tcb at the cursor may have changed. */
  ghost predicate OthersStand(s: State, e: State) {
    && |e.rq| == |s.rq| && e.wq == s.wq && e.gone == s.gone
    && forall j :: 0 <= j < |s.rq| ==> if j == s.cur then e.rq[j].id == s.rq[j].id else e.rq[j] == s.rq[j]
  }

  lemma Ends(s: State)
    requires Inv(s) && Dispatchable(s)
    ensures var t, stop := s.rq[s.cur], Segment(s).1;
            && (stop.Exits? <==> Leaves(t))
            && (stop.Blocks? <==> MustWait(t, s.owner))
  {
    assert ReadyOk(s.rq[s.cur], s.owner);
  }

  // ------------------------------------------------------------- the four endings

  function NextSlot(s: State): int {
    if s.cur == |s.rq| - 1 then 0 else s.cur + 1
  }

  /** One line, which is not the handler's. */
  ghost predicate OneLine(s: State, out: seq<Line>) {
    |s.out| < |out| && s.out <= out && !out[|s.out|].Caught?
  }

  /** A yield prints one line. With a signal pending the handler prints its own
      and the next slot, cyclically, is dispatched; without one the thread runs on. */
  lemma YieldTurn(s: State, sig: Signal)
    requires Inv(s) && Dispatchable(s) && !Leaves(s.rq[s.cur]) && !MustWait(s.rq[s.cur], s.owner)
    ensures var e := Step(s, sig);
            && OthersStand(s, e)
            && e.cur == (if sig.NoSignal? then s.cur else NextSlot(s))
            && OneLine(s, e.out) && |e.out| == |s.out| + (if sig.NoSignal? then 1 else 2)
            && (!sig.NoSignal? ==> e.out[|s.out| + 1] == Caught(sig))
  {
    var u := Segment(s).0;
    Ends(s);
    YieldSegment(s);
    YieldKeeps(s);
    if !sig.NoSignal? { SignalKeeps(u, u.out + [Caught(sig)]); }
  }

  lemma YieldSegment(s: State)
    requires Inv(s) && Dispatchable(s) && Segment(s).1.Yields?
    ensures var u := Segment(s).0;
            OthersStand(s, u) && u.cur == s.cur && OneLine(s, u.out) && |u.out| == |s.out| + 1
  {
    assert ReadyOk(s.rq[s.cur], s.owner);
    SegmentKeepsIds(s);
  }

  /** A thread that finds the lock taken prints nothing and goes to the end of the
      waiting queue; the thread that stood last takes its slot and runs. */
  lemma BlockTurn(s: State, sig: Signal)
    requires Inv(s) && Dispatchable(s) && MustWait(s.rq[s.cur], s.owner)
    ensures var e := Step(s, sig);
            && Vacated(s.rq, e.rq, s.cur) && e.cur == NextAfterLeaving(s)
            && e.wq == s.wq + [s.rq[s.cur].(at := AtLock)]
            && e.out == s.out && e.owner == s.owner && e.gone == s.gone
  {
    Ends(s);
    BlockKeeps(s);
  }

  /** A thread that leaves no waiter to be served: the thread that stood last
      takes its slot and runs. */
  lemma ExitTurn(s: State, sig: Signal)
    requires Inv(s) && Dispatchable(s) && Leaves(s.rq[s.cur])
    requires s.rq[s.cur].id == s.owner ==> s.wq == []
    ensures var e := Step(s, sig);
            && Vacated(s.rq, e.rq, s.cur) && e.cur == NextAfterLeaving(s) && e.wq == s.wq
            && |e.gone| == |s.gone| + 1 && s.gone <= e.gone && e.gone[|s.gone|].id == s.rq[s.cur].id
            && |e.out| == |s.out| + 1 && s.out <= e.out
            && e.owner == if s.rq[s.cur].id == s.owner then NO_OWNER else s.owner
  {
    assert ReadyOk(s.rq[s.cur], s.owner);
    Ends(s);
    SegmentKeepsIds(s);
    ExitLeaves(s);
  }

  /** The owner leaves while others wait: the first of them takes over its slot
      and the lock, is dispatched at once, and nobody else moves. */
  lemma HandOverTurn(s: State, sig: Signal)
    requires Inv(s) && Dispatchable(s) && Leaves(s.rq[s.cur]) && s.rq[s.cur].id == s.owner && s.wq != []
    ensures var e := Step(s, sig);
            && e.rq == s.rq[s.cur := s.wq[0]] && e.cur == s.cur
            && e.wq == s.wq[1..] && e.owner == s.wq[0].id
            && e.out == s.out + [Released(s.rq[s.cur].id)]
  {
    assert ReadyOk(s.rq[s.cur], s.owner);
    Ends(s);
    assert s.rq[s.cur].kind.BankOperation?;
  }

  // -------------------------------------------------------------------- over runs

  lemma {:induction false} RunSnoc(s: State, sigs: seq<Signal>, sig: Signal)
    requires Dispatchable(Run(s, sigs))
    ensures Run(s, sigs + [sig]) == Step(Run(s, sigs), sig)
    decreases |sigs|
  {
    if sigs == [] {
      assert Run(Step(s, sig), []) == Step(s, sig);
    } else {
      assert (sigs + [sig])[1..] == sigs[1..] + [sig];
      if Dispatchable(s) { RunSnoc(Step(s, sigs[0]), sigs[1..], sig); }
    }
  }

  /** Only the owner's last stretch prints a released line. */
  lemma ReleasedBy(s: State, sig: Signal, id: int)
    requires Inv(s) && Dispatchable(s) && s.out + [Released(id)] <= Step(s, sig).out
    ensures Leaves(s.rq[s.cur]) && id == s.rq[s.cur].id == s.owner
  {
    assert ReadyOk(s.rq[s.cur], s.owner);
    var u := Segment(s).0;
    assert Step(s, sig).out[|s.out|] == Released(id);
    assert u.out == s.out || u.out[|s.out|] == Released(id);
  }

  /** The first waiter, resumed, prints that it has the lock. */
  lemma ResumedAcquires(s: State, sig: Signal)
    requires Dispatchable(s) && s.rq[s.cur].kind.BankOperation? && s.rq[s.cur].at.AtLock?
    ensures s.out + [Acquired(s.rq[s.cur].id)] <= Step(s, sig).out
  {
  }

  /** In every run a released line printed while a thread waits is directly
      followed by the acquired line of the first waiter, whatever signals come. */
  lemma ReleasedThenAcquired(cs: seq<Creation>, sigs: seq<Signal>, sig: Signal, sig': Signal, id: int)
    requires Startable(cs) && Dispatchable(Run(Create(cs), sigs)) && Run(Create(cs), sigs).wq != []
    requires Run(Create(cs), sigs).out + [Released(id)] <= Run(Create(cs), sigs + [sig]).out
    ensures var s := Run(Create(cs), sigs);
            s.out + [Released(id), Acquired(s.wq[0].id)] <= Run(Create(cs), sigs + [sig] + [sig']).out
  {
    var s := Run(Create(cs), sigs);
    CreateInv(cs);
    RunKeepsInv(Create(cs), sigs);
    RunSnoc(Create(cs), sigs, sig);
    ReleasedBy(s, sig, id);
    HandOverTurn(s, sig);
    var e := Step(s, sig);
    RunSnoc(Create(cs), sigs + [sig], sig');
    assert s.wq[0] in s.wq;
    ResumedAcquires(e, sig');
    assert e.out + [Acquired(s.wq[0].id)] == s.out + [Released(id), Acquired(s.wq[0].id)];
  }
}
