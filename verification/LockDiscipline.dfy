/** The invariant of every run: the scheduler always has a thread to dispatch
    while any is live, and the lock has exactly one holder, who is ready. */
module LockDiscipline {
  import opened ThreadModel
  import opened ThreadQueues

  function Fib(n: nat): nat {
    if n <= 2 then (if n == 0 then 0 else 1) else Fib(n - 1) + Fib(n - 2)
  }

  function Fact(n: nat): nat {
    if n == 0 then 1 else n * Fact(n - 1)
  }

  /** What a suspended thread's tcb holds at the place its environment resumes. */
  ghost predicate Sound(t: Thread) {
    && 0 <= t.id
    && match t.kind
       case Fibonacci =>
         && t.arg > 0
         && ((t.at.AtStart? && t.i == 0) || (t.at.AtLoop? && 1 <= t.i < t.arg && FibonacciAt(t)))
       case Factorial =>
         && t.arg > 0
         && ((t.at.AtStart? && t.i == 0) || (t.at.AtLoop? && 1 <= t.i < t.arg && t.x == Fact(t.i)))
       case BankOperation => !t.at.AtLoop?
  }

  ghost predicate FibonacciAt(t: Thread)
    requires 1 <= t.i
  {
    t.y == Fib(t.i) && t.x == if t.i == 1 then 1 else Fib(t.i - 1)
  }

  /** A ready bank thread past its `lock()` is between `lock()` and `unlock()`. */
  predicate Holds(t: Thread) {
    t.kind.BankOperation? && !t.at.AtStart?
  }

  ghost predicate Has(q: seq<Thread>, id: int) {
    exists t :: t in q && t.id == id
  }

  ghost predicate ReadyOk(t: Thread, owner: int) {
    Sound(t) && (Holds(t) <==> t.id == owner)
  }

  /** Waiters sit inside `lock()` and none of them owns the lock. */
  ghost predicate WaitersOk(s: State) {
    forall t :: t in s.wq ==> Sound(t) && t.kind.BankOperation? && t.at.AtLock? && t.id != s.owner
  }

  ghost predicate LockInv(s: State) {
    && (forall t :: t in s.rq ==> ReadyOk(t, s.owner))
    && WaitersOk(s)
    && (s.owner != NO_OWNER ==> Has(s.rq, s.owner))
    && (s.wq != [] ==> s.owner != NO_OWNER)
  }

  ghost predicate Inv(s: State) {
    && Distinct(s)
    && |s.rq| + |s.wq| <= THREAD_MAX
    && (Dispatchable(s) || Done(s))
    && LockInv(s)
  }

  lemma PutMembers(q: seq<Thread>, k: nat, t: Thread)
    requires k < |q| && t.id == q[k].id
    requires forall a, b :: 0 <= a < b < |q| ==> q[a].id != q[b].id
    ensures forall u :: u in q[k := t] <==> u == t || (u in q && u.id != t.id)
  {
    var r := q[k := t];
    assert r[k] == t;
    forall u | u in q && u.id != t.id ensures u in r {
      var a :| 0 <= a < |q| && q[a] == u;
      assert r[a] == u;
    }
  }

  /** A resumed stretch leaves a sound tcb; a stretch that exits has printed its
      last value or released the lock. */
  lemma SegmentSound(s: State)
    requires Dispatchable(s) && Sound(s.rq[s.cur])
    ensures !Segment(s).1.Exits? ==> Sound(Segment(s).0.rq[s.cur])
    ensures Segment(s).1.Exits? && s.rq[s.cur].kind.BankOperation? ==> s.rq[s.cur].at.AtYield2?
    ensures Segment(s).1.Exits? && !s.rq[s.cur].kind.BankOperation? ==>
              Segment(s).0.rq[s.cur].i == s.rq[s.cur].arg
  {
  }

  // ------------------------------------------------------- one step at a time

  /** Replacing the running tcb, with the lock kept, or taken while free. */
  lemma PutKeeps(s: State, u: State, t': Thread)
    requires Inv(s) && Dispatchable(s) && t'.id == s.rq[s.cur].id
    requires u.rq == s.rq[s.cur := t'] && u.wq == s.wq && u.gone == s.gone && u.cur == s.cur
    requires ReadyOk(t', u.owner)
    requires u.owner == s.owner || (s.owner == NO_OWNER && u.owner == t'.id)
    ensures Inv(u)
  {
    assert Ids(u.rq) == Ids(s.rq);
    assert IdBag(u) == IdBag(s);
    DistinctSlots(s);
    PutMembers(s.rq, s.cur, t');
    assert t' in u.rq;
    if u.owner != s.owner {
      assert forall t :: t in s.rq ==> ReadyOk(t, NO_OWNER);
    } else if s.owner != NO_OWNER {
      var h :| h in s.rq && h.id == s.owner;
      assert h.id == t'.id || h in u.rq;
    }
  }

  /** A stretch that ends at a yield: the lock is kept, taken while free, or not
      touched; it is never released without an exit. */
  lemma YieldKeeps(s: State)
    requires Inv(s) && Dispatchable(s) && Segment(s).1.Yields?
    ensures Inv(Segment(s).0)
  {
    var u := Segment(s).0;
    assert ReadyOk(s.rq[s.cur], s.owner);
    SegmentKeepsIds(s);
    SegmentSound(s);
    PutKeeps(s, u, u.rq[s.cur]);
  }

  /** The signal entry only moves the cursor: no hand-off is pending there. */
  lemma SignalKeeps(s: State, out: seq<Line>)
    requires Inv(s) && Dispatchable(s)
    ensures Inv(Enter(s.(out := out), 1)) && Dispatchable(Enter(s.(out := out), 1))
    ensures HandOff(s.(out := out)) == s.(out := out)
  {
    var e := Enter(s.(out := out), 1);
    assert IdBag(e) == IdBag(s);
    assert WaitersOk(e);
  }

  /** What is left of the invariant when the current thread is about to leave. */
  ghost predicate Leaving(s: State) {
    && Dispatchable(s)
    && s.owner != s.rq[s.cur].id
    && (forall t :: t in s.rq && t.id != s.rq[s.cur].id ==> ReadyOk(t, s.owner))
    && WaitersOk(s)
    && (s.owner != NO_OWNER ==> Has(s.rq, s.owner))
  }

  lemma ExitLeaves(s: State)
    requires Inv(s) && Dispatchable(s) && Segment(s).1.Exits?
    ensures Leaving(Segment(s).0)
    ensures Segment(s).0.owner == (if s.rq[s.cur].id == s.owner then NO_OWNER else s.owner)
  {
    var u := Segment(s).0;
    var t, t' := s.rq[s.cur], u.rq[s.cur];
    SegmentKeepsIds(s);
    assert ReadyOk(t, s.owner);
    SegmentSound(s);
    DistinctSlots(s);
    assert u.rq == s.rq[s.cur := t'];
    PutMembers(s.rq, s.cur, t');
    if u.owner != NO_OWNER {
      var h :| h in s.rq && h.id == s.owner;
      assert h in u.rq;
    }
  }

  /** The hand-off turns the first waiter into a ready holder, so afterwards a
      waiting thread again implies a ready owner. */
  lemma HandOffGrants(s: State)
    requires Leaving(s) && Distinct(s)
    ensures Leaving(HandOff(s)) && Distinct(HandOff(s))
    ensures HandOff(s).wq != [] ==> HandOff(s).owner != NO_OWNER
    ensures s.owner == NO_OWNER && s.wq != [] ==>
              var h := HandOff(s);
              h.owner == s.wq[0].id && h.rq == s.rq + [s.wq[0]] && h.wq == s.wq[1..]
    ensures s.owner != NO_OWNER || s.wq == [] ==> HandOff(s) == s
    ensures HandOff(s).cur == s.cur && HandOff(s).rq[s.cur] == s.rq[s.cur]
  {
    HandOffKeepsIds(s);
    if s.owner == NO_OWNER && |s.wq| > 0 { HandOffOpens(s); }
  }

  lemma HandOffOpens(s: State)
    requires Leaving(s) && Distinct(s) && s.owner == NO_OWNER && |s.wq| > 0
    ensures Leaving(HandOff(s))
  {
    var h, w := HandOff(s), s.wq[0];
    DistinctSlots(s);
    assert w in s.wq;
    assert forall t :: t in h.wq ==> t in s.wq && t.id != w.id;
    assert w in h.rq;
    assert forall t :: t in s.rq && t.id != s.rq[s.cur].id ==> !Holds(t) by {
      assert forall t :: t in s.rq && t.id != s.rq[s.cur].id ==> ReadyOk(t, NO_OWNER) && Sound(t);
    }
  }

  /** Dropping a thread that owns nothing. */
  lemma DropKeeps(h: State)
    requires Leaving(h) && Distinct(h) && (h.wq != [] ==> h.owner != NO_OWNER)
    ensures LockInv(DropCurrent(h))
    ensures Dispatchable(DropCurrent(h)) || Done(DropCurrent(h))
  {
    DistinctSlots(h);
    WithoutMembers(h.rq, h.cur);
    var d := DropCurrent(h);
    if d.owner != NO_OWNER {
      var o :| o in h.rq && o.id == h.owner;
      assert o in d.rq;
    }
  }

  lemma BlockLeaves(s: State)
    requires Inv(s) && Dispatchable(s) && Segment(s).1.Blocks?
    ensures var u := Segment(s).0;
            && Leaving(u) && Distinct(u) && u.owner == s.owner != NO_OWNER
            && Sound(u.rq[u.cur]) && u.rq[u.cur].kind.BankOperation? && u.rq[u.cur].at.AtLock?
  {
    var u := Segment(s).0;
    var t, t' := s.rq[s.cur], u.rq[s.cur];
    assert ReadyOk(t, s.owner);
    assert Ids(u.rq) == Ids(s.rq);
    assert IdBag(u) == IdBag(s);
    DistinctSlots(s);
    PutMembers(s.rq, s.cur, t');
    var h :| h in s.rq && h.id == s.owner;
    assert h in u.rq;
  }

  /** The blocked thread joins waiters like itself. */
  lemma BlockWaits(u: State)
    requires Leaving(u) && Distinct(u) && u.owner != NO_OWNER
    requires Sound(u.rq[u.cur]) && u.rq[u.cur].kind.BankOperation? && u.rq[u.cur].at.AtLock?
    ensures LockInv(Enter(u, 2)) && Dispatchable(Enter(u, 2)) && HandOff(u) == u
  {
    DropKeeps(u);
    var d, e, t := DropCurrent(u), Enter(u, 2), u.rq[u.cur];
    assert e.rq == d.rq && e.cur == d.cur && e.owner == d.owner && e.wq == d.wq + [t];
    assert WaitersOk(d);
    var h :| h in d.rq && h.id == d.owner;
    assert e.rq != [];
  }

  /** Blocking in `lock()`: the owner stays behind in the ready queue. */
  lemma BlockKeeps(s: State)
    requires Inv(s) && Dispatchable(s) && Segment(s).1.Blocks?
    ensures Inv(Step(s, NoSignal)) && Dispatchable(Step(s, NoSignal))
    ensures HandOff(Segment(s).0) == Segment(s).0
  {
    StepKeepsIds(s, NoSignal);
    BlockLeaves(s);
    BlockWaits(Segment(s).0);
  }

  lemma ExitKeeps(s: State)
    requires Inv(s) && Dispatchable(s) && Segment(s).1.Exits?
    ensures Inv(Step(s, NoSignal))
  {
    var u := Segment(s).0;
    StepKeepsIds(s, NoSignal);
    SegmentKeepsIds(s);
    ExitLeaves(s);
    HandOffGrants(u);
    DropKeeps(HandOff(u));
    assert Step(s, NoSignal) == Enter(u, 3);
    var d, e := DropCurrent(HandOff(u)), Enter(u, 3);
    assert e.rq == d.rq && e.wq == d.wq && e.cur == d.cur && e.owner == d.owner;
  }

  /** Every step of every run keeps the invariant, whichever signals arrive. */
  lemma StepKeepsInv(s: State, sig: Signal)
    requires Inv(s) && Dispatchable(s)
    ensures Inv(Step(s, sig))
  {
    var (u, stop) := Segment(s);
    match stop
    case Yields =>
      YieldKeeps(s);
      SegmentKeepsIds(s);
      SignalKeeps(u, u.out + [Caught(sig)]);
    case Blocks => BlockKeeps(s);
    case Exits => ExitKeeps(s);
  }

  lemma CreateInv(cs: seq<Creation>)
    requires Startable(cs)
    ensures Inv(Create(cs)) && Dispatchable(Create(cs))
  {
    CreateIds(cs);
    CreateDistinct(cs);
  }

  lemma {:induction false} RunKeepsInv(s: State, sigs: seq<Signal>)
    requires Inv(s)
    ensures Inv(Run(s, sigs))
    decreases |sigs|
  {
    if sigs != [] && Dispatchable(s) {
      StepKeepsInv(s, sigs[0]);
      RunKeepsInv(Step(s, sigs[0]), sigs[1..]);
    }
  }

  // ------------------------------------------------------------ main results

  /** Every created id is listed exactly once among the ready, the waiting and
      the freed threads, in every state of every run, and no array write leaves
      its array. */
  lemma QueuePartition(cs: seq<Creation>, sigs: seq<Signal>)
    requires Startable(cs)
    ensures var s := Run(Create(cs), sigs);
            && (forall c :: c in cs ==> IdBag(s)[c.id] == 1)
            && |IdBag(s)| == |cs|
            && |s.rq| + |s.wq| <= THREAD_MAX
  {
    CreateInv(cs);
    RunKeepsInv(Create(cs), sigs);
    RunKeepsBag(Create(cs), sigs);
    CreateIds(cs);
    forall c | c in cs ensures IdBag(Create(cs))[c.id] == 1 {
      var k :| 0 <= k < |cs| && cs[k] == c;
      assert Create(cs).rq[k] in Create(cs).rq;
      InIds(Create(cs).rq, Create(cs).rq[k]);
      assert IdBag(Create(cs))[c.id] <= 1;
    }
  }

  lemma {:induction false} RunKeepsBag(s: State, sigs: seq<Signal>)
    ensures IdBag(Run(s, sigs)) == IdBag(s)
    decreases |sigs|
  {
    if sigs != [] && Dispatchable(s) {
      StepKeepsIds(s, sigs[0]);
      RunKeepsBag(Step(s, sigs[0]), sigs[1..]);
    }
  }

  /** At every dispatch of every run the slot read is in range as long as a
      thread is live, and a waiting thread implies a live ready owner, so
      blocking can never leave nobody to run. */
  lemma NoDeadlock(cs: seq<Creation>, sigs: seq<Signal>)
    requires Startable(cs)
    ensures var s := Run(Create(cs), sigs);
            && (Dispatchable(s) <==> !Done(s))
            && (s.wq != [] ==> Has(s.rq, s.owner))
  {
    CreateInv(cs);
    RunKeepsInv(Create(cs), sigs);
  }

  /** At most one thread is between `lock()` and `unlock()`; it is the recorded
      owner, although a woken waiter never looks at the owner again. */
  lemma MutualExclusion(cs: seq<Creation>, sigs: seq<Signal>)
    requires Startable(cs)
    ensures var s := Run(Create(cs), sigs);
            && (forall t :: t in s.rq ==> (Holds(t) <==> t.id == s.owner))
            && (forall t, u :: t in s.rq && u in s.rq && Holds(t) && Holds(u) ==> t == u)
  {
    CreateInv(cs);
    RunKeepsInv(Create(cs), sigs);
    var s := Run(Create(cs), sigs);
    DistinctSlots(s);
    assert forall t :: t in s.rq ==> ReadyOk(t, s.owner);
  }
}
