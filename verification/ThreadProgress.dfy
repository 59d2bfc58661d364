/** Progress of the runs: all of them end, and no ready thread is passed over
    for long. */
module ThreadProgress {
  import opened ThreadModel
  import opened ThreadQueues
  import opened LockDiscipline
  import opened LockHistory

  // ------------------------------------------------------------ sums of weights

  function Sum(q: seq<Thread>, w: Thread -> nat): nat {
    if q == [] then 0 else Sum(q[..|q| - 1], w) + w(q[|q| - 1])
  }

  lemma SumAppend(q: seq<Thread>, t: Thread, w: Thread -> nat)
    ensures Sum(q + [t], w) == Sum(q, w) + w(t)
  {
  }

  lemma {:induction false} SumPut(q: seq<Thread>, k: nat, t: Thread, w: Thread -> nat)
    requires k < |q|
    ensures Sum(q[k := t], w) + w(q[k]) == Sum(q, w) + w(t)
  {
    var n := |q| - 1;
    if k < n {
      SumPut(q[..n], k, t, w);
      assert q[k := t][..n] == q[..n][k := t];
    } else {
      assert q[k := t][..n] == q[..n];
    }
  }

  lemma SumWithout(q: seq<Thread>, k: nat, w: Thread -> nat)
    requires k < |q|
    ensures Sum(Without(q, k), w) + w(q[k]) == Sum(q, w)
  {
    var last := q[|q| - 1];
    SumPut(q, k, last, w);
    assert Sum(q[k := last], w) == Sum(Without(q, k), w) + w(last);
  }

  lemma {:induction false} SumFirst(q: seq<Thread>, w: Thread -> nat)
    requires q != []
    ensures Sum(q, w) == w(q[0]) + Sum(q[1..], w)
  {
    var n := |q| - 1;
    if n > 0 {
      SumFirst(q[..n], w);
      assert q[..n][1..] == q[1..][..n - 1];
    } else {
      assert q[..n] == [] && q[1..] == [];
    }
  }

  /** What the scheduler does to the weights: only an exiting thread's goes. */
  lemma SumEnter(s: State, rtv: int, w: Thread -> nat)
    requires Dispatchable(s) && 1 <= rtv <= 3
    ensures var e := Enter(s, rtv);
            Sum(e.rq, w) + Sum(e.wq, w) + (if rtv == 3 then w(s.rq[s.cur]) else 0)
            == Sum(s.rq, w) + Sum(s.wq, w)
  {
    var h := HandOff(s);
    assert Sum(h.rq, w) + Sum(h.wq, w) == Sum(s.rq, w) + Sum(s.wq, w) by {
      if |s.wq| > 0 {
        SumFirst(s.wq, w);
        SumAppend(s.rq, s.wq[0], w);
      }
    }
    if rtv != 1 {
      SumWithout(h.rq, h.cur, w);
      SumAppend(h.wq, s.rq[s.cur], w);
    }
  }

  // -------------------------------------------------------------- termination

  /** Remaining rounds of a loop thread, remaining stages of a bank thread. */
  function Work(t: Thread): nat {
    if t.kind.BankOperation? then
      match t.at case AtStart => 4 case AtLock => 3 case AtYield1 => 2 case AtYield2 => 1 case AtLoop => 0
    else if t.i < t.arg then t.arg - t.i else 0
  }

  function Total(s: State): nat {
    Sum(s.rq, Work) + Sum(s.wq, Work)
  }

  lemma SegmentWorks(s: State)
    requires Dispatchable(s) && Sound(s.rq[s.cur])
    ensures Work(s.rq[s.cur]) > 0
    ensures !Segment(s).1.Exits? ==> Work(Segment(s).0.rq[s.cur]) < Work(s.rq[s.cur])
    ensures Segment(s).1.Exits? ==> Work(Segment(s).0.rq[s.cur]) <= Work(s.rq[s.cur])
  {
  }

  lemma StepWorks(s: State, sig: Signal)
    requires Inv(s) && Dispatchable(s)
    ensures Total(Step(s, sig)) < Total(s)
  {
    var (u, stop) := Segment(s);
    var t, t' := s.rq[s.cur], u.rq[s.cur];
    assert ReadyOk(t, s.owner);
    SegmentWorks(s);
    SegmentKeepsIds(s);
    assert u.rq == s.rq[s.cur := t'];
    SumPut(s.rq, s.cur, t', Work);
    var v := u.(out := u.out + [Caught(sig)]);
    if stop.Yields? { SumEnter(v, 1, Work); } else { SumEnter(u, Rtv(stop), Work); }
  }

  /** The steps a set of threads can take at most: the rounds of the loop
      threads and four stages for each bank thread. */
  function Budget(cs: seq<Creation>): nat {
    if cs == [] then 0 else Budget(cs[..|cs| - 1]) + Work(Fresh(cs[|cs| - 1]))
  }

  lemma CreateTotal(cs: seq<Creation>)
    ensures Total(Create(cs)) == Budget(cs)
  {
  }

  lemma {:induction false} RunEnds(s: State, sigs: seq<Signal>)
    requires Inv(s) && Total(s) <= |sigs|
    ensures Done(Run(s, sigs))
    decreases |sigs|
  {
    if Dispatchable(s) {
      StepWorks(s, if sigs == [] then NoSignal else sigs[0]);
      StepKeepsInv(s, sigs[0]);
      RunEnds(Step(s, sigs[0]), sigs[1..]);
    }
  }

  // -------------------------------------------------- the guards of main are needed

  /** A loop thread whose bound its index never meets. */
  predicate Runaway(t: Thread) {
    !t.kind.BankOperation? && t.arg <= 0 <= t.i
  }

  lemma RunawayStays(s: State, p: nat, sig: Signal)
    requires Dispatchable(s) && p < |s.rq| && Runaway(s.rq[p])
    ensures exists q :: 0 <= q < |Step(s, sig).rq| && Runaway(Step(s, sig).rq[q])
  {
    var (u, stop) := Segment(s);
    SegmentKeepsIds(s);
    var e := Step(s, sig);
    if p == s.cur {
      assert stop.Yields? && Runaway(u.rq[p]);
      assert Runaway(e.rq[p]);
    } else {
      assert u.rq[p] == s.rq[p];
      if p < |e.rq| && e.rq[p] == s.rq[p] {
      } else {
        assert e.rq[s.cur] == s.rq[p];
      }
    }
  }

  lemma {:induction false} RunawayRuns(s: State, p: nat, sigs: seq<Signal>)
    requires p < |s.rq| && Runaway(s.rq[p])
    ensures !Done(Run(s, sigs))
    decreases |sigs|
  {
    if sigs != [] && Dispatchable(s) {
      RunawayStays(s, p, sigs[0]);
      var q :| 0 <= q < |Step(s, sigs[0]).rq| && Runaway(Step(s, sigs[0]).rq[q]);
      RunawayRuns(Step(s, sigs[0]), q, sigs[1..]);
    }
  }

  ghost predicate AlwaysEnds(cs: seq<Creation>) {
    exists n: nat :: EndsWithin(cs, n)
  }

  ghost predicate EndsWithin(cs: seq<Creation>, n: nat) {
    forall sigs: seq<Signal> :: |sigs| >= n ==> Done(Run(Create(cs), sigs))
  }

  /** For threads with distinct ids that fit the arrays, all runs end within a
      common bound exactly when the bounds of the loop threads pass the guards
      `init_threads` puts on them. */
  lemma TerminationIff(cs: seq<Creation>)
    requires 0 < |cs| <= THREAD_MAX
    requires forall a, b :: 0 <= a < b < |cs| ==> cs[a].id != cs[b].id
    requires forall c :: c in cs ==> 0 <= c.id
    ensures AlwaysEnds(cs) <==> forall c :: c in cs && !c.kind.BankOperation? ==> c.arg > 0
  {
    if Startable(cs) {
      CreateInv(cs);
      CreateTotal(cs);
      forall sigs: seq<Signal> | |sigs| >= Budget(cs) ensures Done(Run(Create(cs), sigs)) {
        RunEnds(Create(cs), sigs);
      }
      assert EndsWithin(cs, Budget(cs));
    } else {
      var c :| c in cs && !c.kind.BankOperation? && c.arg <= 0;
      var k :| 0 <= k < |cs| && cs[k] == c;
      CreateIds(cs);
      forall n: nat ensures !EndsWithin(cs, n) {
        var sigs := seq(n, _ => NoSignal);
        RunawayRuns(Create(cs), k, sigs);
        assert |sigs| >= n && !Done(Run(Create(cs), sigs));
      }
    }
  }

  // ------------------------------------------------------------ no starvation

  function NotYetLocked(t: Thread): nat {
    if t.kind.BankOperation? && t.at.AtStart? then 1 else 0
  }

  /** How far the cursor is from slot `p`. */
  function Distance(s: State, p: nat): nat
    requires p < |s.rq| && Dispatchable(s)
  {
    if p >= s.cur then p - s.cur else p + |s.rq| - s.cur
  }

  /** Threads that have not called `lock()` yet. */
  function Pending(s: State): nat {
    Sum(s.rq, NotYetLocked) + Sum(s.wq, NotYetLocked)
  }

  function Rank(s: State, p: nat): nat
    requires p < |s.rq| && Dispatchable(s)
  {
    Distance(s, p) + (|s.rq| + |s.wq|) + Pending(s)
  }

  /** Where the three kinds of entry leave the thread of slot `p`. */
  lemma EnterDistance(s: State, p: nat, rtv: int)
    requires Dispatchable(s) && p < |s.rq| && p != s.cur && 1 <= rtv <= 3
    requires rtv != 3 ==> HandOff(s) == s
    ensures var e := Enter(s, rtv);
            Dispatchable(e) &&
            (e.rq[e.cur] == s.rq[p] ||
             (p < |e.rq| && e.rq[p] == s.rq[p] && p != e.cur &&
              Distance(e, p) <= Distance(s, p) - (if rtv == 1 then 1 else 0)))
  {
  }

  lemma PendingSegment(s: State)
    requires Inv(s) && Dispatchable(s)
    ensures Pending(Segment(s).0) + (if Segment(s).1.Blocks? then 1 else 0) <= Pending(s)
  {
    var u := Segment(s).0;
    var t, t' := s.rq[s.cur], u.rq[s.cur];
    assert ReadyOk(t, s.owner);
    SegmentKeepsIds(s);
    assert u.rq == s.rq[s.cur := t'];
    SumPut(s.rq, s.cur, t', NotYetLocked);
  }

  lemma RankEnter(u: State, p: nat, rtv: int, b: nat)
    requires Dispatchable(u) && p < |u.rq| && p != u.cur && 1 <= rtv <= 3
    requires rtv != 3 ==> HandOff(u) == u
    requires Pending(u) + (if rtv == 2 then 1 else 0) <= b
    ensures var e := Enter(u, rtv);
            Dispatchable(e) &&
            (e.rq[e.cur] == u.rq[p] ||
             (p < |e.rq| && e.rq[p] == u.rq[p] && p != e.cur &&
              Rank(e, p) < Distance(u, p) + (|u.rq| + |u.wq|) + b))
  {
    EnterDistance(u, p, rtv);
    EnterKeepsIds(u, rtv);
    SumEnter(u, rtv, NotYetLocked);
  }

  /** Each entry into the scheduler either dispatches the ready thread of slot
      `p` or brings it strictly closer to its turn; between entries it never
      loses ground. */
  lemma StepRank(s: State, p: nat, sig: Signal)
    requires Inv(s) && Dispatchable(s) && p < |s.rq| && p != s.cur
    ensures var e := Step(s, sig);
            && Dispatchable(e)
            && ((Enters(s, sig) && e.rq[e.cur] == s.rq[p]) ||
                (p < |e.rq| && e.rq[p] == s.rq[p] && p != e.cur &&
                 Rank(e, p) + (if Enters(s, sig) then 1 else 0) <= Rank(s, p)))
  {
    var (u, stop) := Segment(s);
    SegmentKeepsIds(s);
    PendingSegment(s);
    var v := u.(out := u.out + [Caught(sig)]);
    match stop
    case Yields =>
      YieldKeeps(s);
      RankEnter(v, p, 1, Pending(s));
    case Blocks =>
      BlockKeeps(s);
      RankEnter(u, p, 2, Pending(s));
    case Exits =>
      RankEnter(u, p, 3, Pending(s));
  }

  /** The number of scheduler entries in a run. */
  function Entries(s: State, sigs: seq<Signal>): nat
    decreases |sigs|
  {
    if sigs == [] || !Dispatchable(s) then 0
    else (if Enters(s, sigs[0]) then 1 else 0) + Entries(Step(s, sigs[0]), sigs[1..])
  }

  /** The first `k` stretches of the run bring `t` to the processor, within the
      given number of scheduler entries. */
  ghost predicate DispatchedAfter(s: State, sigs: seq<Signal>, k: nat, t: Thread, entries: nat)
    requires k <= |sigs|
  {
    var e := Run(s, sigs[..k]);
    Dispatchable(e) && e.rq[e.cur] == t && Entries(s, sigs[..k]) <= entries
  }

  /** A ready thread is dispatched within as many scheduler entries as its rank,
      in every run that has that many or goes on to the end. */
  lemma {:induction false} NoStarvation(s: State, p: nat, sigs: seq<Signal>)
    requires Inv(s) && Dispatchable(s) && p < |s.rq|
    requires Entries(s, sigs) >= Rank(s, p) || Done(Run(s, sigs))
    ensures exists k: nat :: k <= |sigs| && DispatchedAfter(s, sigs, k, s.rq[p], Rank(s, p))
    decreases |sigs|
  {
    if p == s.cur {
      assert DispatchedAfter(s, sigs, 0, s.rq[p], Rank(s, p));
    } else {
      assert sigs != [];
      var e := Step(s, sigs[0]);
      assert Run(s, sigs) == Run(e, sigs[1..]);
      StepRank(s, p, sigs[0]);
      if Enters(s, sigs[0]) && e.rq[e.cur] == s.rq[p] {
        FirstStep(s, sigs, 0);
        assert sigs[1..][..0] == [];
        assert DispatchedAfter(s, sigs, 1, s.rq[p], Rank(s, p));
      } else {
        StepKeepsInv(s, sigs[0]);
        NoStarvation(e, p, sigs[1..]);
        var k: nat :| k <= |sigs[1..]| && DispatchedAfter(e, sigs[1..], k, e.rq[p], Rank(e, p));
        FirstStep(s, sigs, k);
        assert DispatchedAfter(s, sigs, k + 1, s.rq[p], Rank(s, p));
      }
    }
  }

  lemma FirstStep(s: State, sigs: seq<Signal>, k: nat)
    requires Dispatchable(s) && sigs != [] && k <= |sigs[1..]|
    ensures Run(s, sigs[..k + 1]) == Run(Step(s, sigs[0]), sigs[1..][..k])
    ensures Entries(s, sigs[..k + 1]) ==
            (if Enters(s, sigs[0]) then 1 else 0) + Entries(Step(s, sigs[0]), sigs[1..][..k])
  {
    assert sigs[..k + 1][1..] == sigs[1..][..k];
  }

  /** The rank is linear in the number of threads. */
  lemma RankBound(s: State, p: nat)
    requires Dispatchable(s) && p < |s.rq|
    ensures Rank(s, p) < 3 * (|s.rq| + |s.wq|)
  {
    SumBound(s.rq);
    SumBound(s.wq);
  }

  lemma SumBound(q: seq<Thread>)
    ensures Sum(q, NotYetLocked) <= |q|
  {
  }

  /** From any moment of any run, a ready thread gets the processor within as
      many entries into the scheduler as three times the number of threads, if the
      run has that many or goes on to the end. */
  lemma BoundedWait(cs: seq<Creation>, sigs: seq<Signal>, p: nat, more: seq<Signal>)
    requires Startable(cs)
    requires var s := Run(Create(cs), sigs);
             p < |s.rq| && (Entries(s, more) >= 3 * |cs| || Done(Run(s, more)))
    ensures var s := Run(Create(cs), sigs);
            exists k: nat :: k <= |more| && DispatchedAfter(s, more, k, s.rq[p], 3 * |cs|)
  {
    HistoryOf(cs, sigs);
    var s := Run(Create(cs), sigs);
    QueuePartition(cs, sigs);
    RankBound(s, p);
    NoStarvation(s, p, more);
    var k: nat :| k <= |more| && DispatchedAfter(s, more, k, s.rq[p], Rank(s, p));
    assert DispatchedAfter(s, more, k, s.rq[p], 3 * |cs|);
  }

  // ----------------------------------------------------------------- complete runs

  /** What has been printed once no thread is left. */
  lemma DoneOutput(cs: seq<Creation>, sigs: seq<Signal>)
    requires Startable(cs) && Done(Run(Create(cs), sigs))
    ensures var s := Run(Create(cs), sigs);
            && (forall c :: c in cs && !c.kind.BankOperation? ==>
                  LinesOf(s.out, c.id) == [Setup(c.id, c.kind)] + Values(c.kind, c.id, c.arg))
            && BankLines(s.out) == Transcript(s.calls, cs)
            && s.balance == BalanceAfter(s.calls, cs)
            && (forall a, b :: 0 <= a < b < |s.calls| ==> s.calls[a] != s.calls[b])
            && (forall c :: c in cs ==> (c.kind.BankOperation? <==> c.id in s.calls))
  {
    var s := Run(Create(cs), sigs);
    CreateInv(cs);
    CreateHistory(cs);
    RunKeepsHistory(Create(cs), sigs, cs);
    QueuePartition(cs, sigs);
    assert s.owner == NO_OWNER;
    forall c | c in cs
      ensures c.kind.BankOperation? <==> c.id in s.calls
      ensures !c.kind.BankOperation? ==>
                LinesOf(s.out, c.id) == [Setup(c.id, c.kind)] + Values(c.kind, c.id, c.arg)
    {
      if !c.kind.BankOperation? { FreedOutput(cs, s, c); }
      FreedCalled(cs, s, c);
    }
    assert s.calls == s.grants;
  }

  /** The whole library, under any signals: every run long enough ends; each
      loop thread has then printed exactly its sequence; the bank threads have
      printed what they would one after another in the order of their `lock()`
      calls, each served once; and the balance is the one that order gives. */
  lemma CompleteRun(cs: seq<Creation>, sigs: seq<Signal>)
    requires Startable(cs) && |sigs| >= Budget(cs)
    ensures var s := Run(Create(cs), sigs);
            && Done(s)
            && (forall c :: c in cs && !c.kind.BankOperation? ==>
                  LinesOf(s.out, c.id) == [Setup(c.id, c.kind)] + Values(c.kind, c.id, c.arg))
            && BankLines(s.out) == Transcript(s.calls, cs)
            && s.balance == BalanceAfter(s.calls, cs)
            && (forall a, b :: 0 <= a < b < |s.calls| ==> s.calls[a] != s.calls[b])
            && (forall c :: c in cs ==> (c.kind.BankOperation? <==> c.id in s.calls))
  {
    CreateInv(cs);
    CreateTotal(cs);
    RunEnds(Create(cs), sigs);
    DoneOutput(cs, sigs);
  }

  lemma SameId(cs: seq<Creation>, c: Creation, d: Creation)
    requires forall a, b :: 0 <= a < b < |cs| ==> cs[a].id != cs[b].id
    requires c in cs && d in cs && c.id == d.id
    ensures c == d
  {
  }

  /** Once the queues are empty, the tcb of every created thread has been freed. */
  lemma FreedThread(cs: seq<Creation>, s: State, c: Creation) returns (t: Thread)
    requires Startable(cs) && c in cs && Done(s) && Static(s, cs) && IdBag(s)[c.id] == 1
    ensures t in s.gone && Origin(t) == c
  {
    assert multiset(Ids(s.gone))[c.id] == 1;
    assert c.id in Ids(s.gone);
    t := OfIds(s.gone, c.id);
    assert Origin(t) in cs;
    SameId(cs, Origin(t), c);
  }

  lemma FreedOutput(cs: seq<Creation>, s: State, c: Creation)
    requires Startable(cs) && c in cs && Done(s) && Static(s, cs) && IdBag(s)[c.id] == 1
    requires Output(s) && !c.kind.BankOperation?
    ensures LinesOf(s.out, c.id) == [Setup(c.id, c.kind)] + Values(c.kind, c.id, c.arg)
  {
  }

  lemma FreedCalled(cs: seq<Creation>, s: State, c: Creation)
    requires Startable(cs) && c in cs && Done(s) && Static(s, cs) && IdBag(s)[c.id] == 1
    requires CallsOnce(s, cs)
    ensures c.kind.BankOperation? <==> c.id in s.calls
  {
    var t := FreedThread(cs, s, c);
    if c.id in s.calls {
      var d :| d in cs && d.kind.BankOperation? && d.id == c.id;
      SameId(cs, c, d);
    }
  }

  /** The bank is never overdrawn, and its balance is the opening balance plus
      all deposits minus the withdrawals that were covered. */
  lemma {:induction false} BalanceAccounts(ids: seq<int>, cs: seq<Creation>)
    ensures BalanceAfter(ids, cs) >= 0
    ensures BalanceAfter(ids, cs) == OPENING_BALANCE + Deposits(ids, cs) - Withdrawals(ids, cs)
  {
    if ids != [] {
      BalanceAccounts(ids[..|ids| - 1], cs);
    }
  }

  function Deposits(ids: seq<int>, cs: seq<Creation>): int {
    if ids == [] then 0
    else
      var arg := ArgOf(cs, ids[|ids| - 1]);
      Deposits(ids[..|ids| - 1], cs) + (if arg > 0 then arg else 0)
  }

  function Withdrawals(ids: seq<int>, cs: seq<Creation>): int {
    if ids == [] then 0
    else
      var prior, arg := ids[..|ids| - 1], ArgOf(cs, ids[|ids| - 1]);
      Withdrawals(prior, cs) + (if arg < 0 && -arg <= BalanceAfter(prior, cs) then -arg else 0)
  }

  /** `main` with at least one argument that passes its guard is such a start. */
  lemma MainStarts(fib: int, fact: int, bank1: int, bank2: int)
    ensures var cs := InitThreads(fib, fact, bank1, bank2);
            Startable(cs) <==> fib > 0 || fact > 0 || bank1 != 0 || bank2 != 0
  {
  }
}
