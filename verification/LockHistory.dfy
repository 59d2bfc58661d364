/** What the runs print. The bank threads' lines are those of a sequential
    execution in the order of the `lock()` calls, and every other thread prints
    its own numbers whatever is interleaved with it. */
module LockHistory {
  import opened ThreadModel
  import opened ThreadQueues
  import opened LockDiscipline

  // ------------------------------------------------- the sequential reference

  /** The argument the thread `id` was created with. */
  function ArgOf(cs: seq<Creation>, id: int): int {
    if cs == [] then 0 else if cs[0].id == id then cs[0].arg else ArgOf(cs[1..], id)
  }

  function BalanceAfter(ids: seq<int>, cs: seq<Creation>): int {
    if ids == [] then OPENING_BALANCE
    else Settle(BalanceAfter(ids[..|ids| - 1], cs), ArgOf(cs, ids[|ids| - 1]))
  }

  /** The lines of the bank threads `ids` run one after the other, alone. */
  function Transcript(ids: seq<int>, cs: seq<Creation>): seq<Line> {
    if ids == [] then []
    else
      var prior, id := ids[..|ids| - 1], ids[|ids| - 1];
      Transcript(prior, cs) +
      [Acquired(id), Ledger(id, BalanceAfter(prior, cs), BalanceAfter(ids, cs)), Released(id)]
  }

  /** The lines a fibonacci or factorial thread prints in its first `n` rounds. */
  function Values(kind: Kind, id: int, n: nat): seq<Line> {
    if n == 0 then []
    else Values(kind, id, n - 1) + [Value(id, if kind.Fibonacci? then Fib(n) else Fact(n))]
  }

  // ------------------------------------------------------ views of the output

  predicate IsBankLine(l: Line) {
    l.Acquired? || l.Ledger? || l.Released?
  }

  function BankLines(out: seq<Line>): seq<Line> {
    if out == [] then []
    else BankLines(out[..|out| - 1]) + (if IsBankLine(out[|out| - 1]) then [out[|out| - 1]] else [])
  }

  predicate IsOf(l: Line, id: int) {
    !l.Caught? && l.id == id
  }

  function LinesOf(out: seq<Line>, id: int): seq<Line> {
    if out == [] then []
    else LinesOf(out[..|out| - 1], id) + (if IsOf(out[|out| - 1], id) then [out[|out| - 1]] else [])
  }

  lemma AppendLine(out: seq<Line>, l: Line, id: int)
    ensures BankLines(out + [l]) == BankLines(out) + (if IsBankLine(l) then [l] else [])
    ensures LinesOf(out + [l], id) == LinesOf(out, id) + (if IsOf(l, id) then [l] else [])
  {
  }

  // --------------------------------------------------------------- invariants

  /** Threads keep the kind, id and argument they were created with. */
  function Origin(t: Thread): Creation {
    Creation(t.kind, t.id, t.arg)
  }

  ghost predicate Static(s: State, cs: seq<Creation>) {
    && (forall t :: t in s.rq ==> Origin(t) in cs)
    && (forall t :: t in s.wq ==> Origin(t) in cs)
    && (forall t :: t in s.gone ==> Origin(t) in cs)
  }

  /** First come, first served: the lock calls not granted yet are exactly the
      waiting queue, in its order. */
  ghost predicate Fifo(s: State) {
    s.calls == s.grants + Ids(s.wq)
  }

  /** The part of the holder's lines already printed. */
  function Session(t: Thread, prior: seq<int>, cs: seq<Creation>): seq<Line> {
    match t.at
    case AtYield1 => [Acquired(t.id)]
    case AtYield2 => [Acquired(t.id), Ledger(t.id, BalanceAfter(prior, cs), BalanceAfter(prior + [t.id], cs))]
    case _ => []
  }

  ghost predicate HolderOk(s: State, t: Thread, cs: seq<Creation>)
    requires s.grants != []
  {
    var prior := s.grants[..|s.grants| - 1];
    && s.grants == prior + [t.id]
    && BankLines(s.out) == Transcript(prior, cs) + Session(t, prior, cs)
    && s.balance == BalanceAfter(if t.at.AtYield2? then s.grants else prior, cs)
  }

  ghost predicate Books(s: State, cs: seq<Creation>) {
    if s.owner == NO_OWNER then
      BankLines(s.out) == Transcript(s.grants, cs) && s.balance == BalanceAfter(s.grants, cs)
    else
      s.grants != [] && forall t :: t in s.rq && t.id == s.owner ==> HolderOk(s, t, cs)
  }

  /** Each bank thread calls `lock()` once. */
  ghost predicate CallsOnce(s: State, cs: seq<Creation>) {
    && (forall a, b :: 0 <= a < b < |s.calls| ==> s.calls[a] != s.calls[b])
    && (forall t :: t in s.rq ==> (Holds(t) <==> t.id in s.calls))
    && (forall t :: t in s.gone && t.kind.BankOperation? ==> t.id in s.calls)
    && (forall id :: id in s.calls ==> exists c :: c in cs && c.kind.BankOperation? && c.id == id)
  }

  /** A fibonacci or factorial thread has printed its set-up line and then one
      value for each of its rounds so far. */
  ghost predicate PrintedOk(t: Thread, out: seq<Line>) {
    !t.kind.BankOperation? && 0 <= t.i ==>
      LinesOf(out, t.id) == [Setup(t.id, t.kind)] + Values(t.kind, t.id, t.i)
  }

  ghost predicate Output(s: State) {
    && (forall t :: t in s.rq ==> PrintedOk(t, s.out))
    && (forall t :: t in s.gone ==> PrintedOk(t, s.out) && (!t.kind.BankOperation? ==> t.i == t.arg))
  }

  ghost predicate History(s: State, cs: seq<Creation>) {
    Static(s, cs) && Fifo(s) && Books(s, cs) && CallsOnce(s, cs) && Output(s)
  }

  // --------------------------------------------------- a stretch and its lines

  lemma {:induction false} ArgOfMember(cs: seq<Creation>, c: Creation)
    requires forall a, b :: 0 <= a < b < |cs| ==> cs[a].id != cs[b].id
    requires c in cs
    ensures ArgOf(cs, c.id) == c.arg
  {
    if cs[0] != c {
      assert c in cs[1..];
      var k :| 1 <= k < |cs| && cs[k] == c;
      assert cs[0].id != cs[k].id;
      ArgOfMember(cs[1..], c);
    }
  }

  /** A stretch prints at most one line, about its own thread. */
  lemma SegmentPrints(s: State)
    requires Dispatchable(s)
    ensures var u := Segment(s).0;
            u.out == s.out || exists l :: u.out == s.out + [l] && IsOf(l, s.rq[s.cur].id)
    ensures Origin(Segment(s).0.rq[s.cur]) == Origin(s.rq[s.cur])
  {
  }

  /** An entry into the scheduler only moves tcbs. */
  lemma EnterMoves(s: State, rtv: int)
    requires Dispatchable(s) && 1 <= rtv <= 3
    ensures forall t :: t in Enter(s, rtv).rq ==> t in s.rq || t in s.wq
    ensures forall t :: t in Enter(s, rtv).wq ==> t in s.wq || t == s.rq[s.cur]
    ensures forall t :: t in Enter(s, rtv).gone ==> t in s.gone || (rtv == 3 && t == s.rq[s.cur])
  {
  }

  // ------------------------------------------------------------------- static

  lemma StaticStep(s: State, sig: Signal, cs: seq<Creation>)
    requires Dispatchable(s) && Static(s, cs)
    ensures Static(Step(s, sig), cs)
  {
    var (u, stop) := Segment(s);
    SegmentPrints(s);
    SegmentKeepsIds(s);
    var t' := u.rq[s.cur];
    assert Static(u, cs) by {
      assert u.rq == s.rq[s.cur := t'];
      assert Origin(s.rq[s.cur]) in cs;
    }
    var v := u.(out := u.out + [Caught(sig)]);
    if stop.Yields? { EnterMoves(v, 1); } else { EnterMoves(u, Rtv(stop)); }
  }

  // --------------------------------------------------------------------- FIFO

  lemma FifoEnter(s: State, rtv: int)
    requires Dispatchable(s) && 1 <= rtv <= 3
    requires if rtv == 2 then s.owner != NO_OWNER && s.calls == s.grants + Ids(s.wq) + [s.rq[s.cur].id] else Fifo(s)
    ensures Fifo(Enter(s, rtv))
  {
  }

  lemma FifoStep(s: State, sig: Signal)
    requires Inv(s) && Dispatchable(s) && Fifo(s)
    ensures Fifo(Step(s, sig))
  {
    var (u, stop) := Segment(s);
    assert ReadyOk(s.rq[s.cur], s.owner);
    SegmentSound(s);
    match stop
    case Yields =>
      if u.owner != s.owner { assert s.wq == []; }
      FifoEnter(u.(out := u.out + [Caught(sig)]), 1);
    case Blocks => FifoEnter(u, 2);
    case Exits => FifoEnter(u, 3);
  }

  // -------------------------------------------------------------------- books

  /** Lines about no bank, printed by a thread that does not touch the lock. */
  lemma BooksSkip(s: State, u: State, t': Thread, lines: seq<Line>, cs: seq<Creation>)
    requires Inv(s) && Dispatchable(s) && Books(s, cs) && t'.id == s.rq[s.cur].id != s.owner
    requires u.rq == s.rq[s.cur := t'] && u.owner == s.owner && u.balance == s.balance && u.grants == s.grants
    requires u.out == s.out + lines && (lines == [] || (|lines| == 1 && !IsBankLine(lines[0])))
    ensures Books(u, cs)
  {
    DistinctSlots(s);
    PutMembers(s.rq, s.cur, t');
    if lines == [] {
      assert u.out == s.out;
    } else {
      assert u.out == s.out + [lines[0]];
      AppendLine(s.out, lines[0], 0);
    }
    assert BankLines(u.out) == BankLines(s.out);
    forall t | t in u.rq && t.id == u.owner && u.owner != NO_OWNER ensures HolderOk(u, t, cs) {
      assert HolderOk(s, t, cs);
    }
  }

  /** The thread that holds the lock after the stretch is the running one. */
  lemma BooksHolder(s: State, u: State, t': Thread, cs: seq<Creation>)
    requires Inv(s) && Dispatchable(s) && t'.id == s.rq[s.cur].id == u.owner
    requires u.rq == s.rq[s.cur := t'] && u.grants != [] && u.owner != NO_OWNER
    requires HolderOk(u, t', cs)
    ensures Books(u, cs)
  {
    DistinctSlots(s);
    PutMembers(s.rq, s.cur, t');
  }

  lemma BankTakes(s: State, u: State, cs: seq<Creation>)
    requires Inv(s) && Dispatchable(s) && Books(s, cs) && s.owner == NO_OWNER
    requires s.rq[s.cur].kind.BankOperation? && s.rq[s.cur].at.AtStart?
    requires u == Segment(s).0
    ensures Books(u, cs)
  {
    var t := s.rq[s.cur];
    assert ReadyOk(t, s.owner);
    AppendLine(s.out, Acquired(t.id), 0);
    assert u.grants[..|u.grants| - 1] == s.grants;
    BooksHolder(s, u, u.rq[s.cur], cs);
  }

  lemma BankEnters(s: State, u: State, cs: seq<Creation>)
    requires Inv(s) && Dispatchable(s) && Books(s, cs)
    requires s.rq[s.cur].kind.BankOperation? && s.rq[s.cur].at.AtLock?
    requires u == Segment(s).0
    ensures Books(u, cs)
  {
    var t, t' := s.rq[s.cur], u.rq[s.cur];
    assert ReadyOk(t, s.owner);
    var prior := s.grants[..|s.grants| - 1];
    assert HolderOk(s, t, cs);
    AppendLine(s.out, Acquired(t.id), 0);
    assert BankLines(u.out) == Transcript(prior, cs) + Session(t', prior, cs);
    BooksHolder(s, u, t', cs);
  }

  lemma BankSettles(s: State, u: State, cs: seq<Creation>)
    requires Inv(s) && Dispatchable(s) && Books(s, cs)
    requires s.rq[s.cur].kind.BankOperation? && s.rq[s.cur].at.AtYield1?
    requires ArgOf(cs, s.rq[s.cur].id) == s.rq[s.cur].arg
    requires u == Segment(s).0
    ensures Books(u, cs)
  {
    var t, t' := s.rq[s.cur], u.rq[s.cur];
    assert ReadyOk(t, s.owner);
    var prior := s.grants[..|s.grants| - 1];
    assert HolderOk(s, t, cs);
    AppendLine(s.out, Ledger(t.id, s.balance, u.balance), 0);
    assert BalanceAfter(prior + [t.id], cs) == Settle(BalanceAfter(prior, cs), t.arg) by {
      assert (prior + [t.id])[..|prior|] == prior;
    }
    assert BankLines(u.out) == Transcript(prior, cs) + Session(t', prior, cs);
    BooksHolder(s, u, t', cs);
  }

  lemma BankReleases(s: State, u: State, cs: seq<Creation>)
    requires Inv(s) && Dispatchable(s) && Books(s, cs)
    requires s.rq[s.cur].kind.BankOperation? && s.rq[s.cur].at.AtYield2?
    requires u == Segment(s).0
    ensures Books(u, cs)
  {
    var t := s.rq[s.cur];
    assert ReadyOk(t, s.owner);
    var prior := s.grants[..|s.grants| - 1];
    assert HolderOk(s, t, cs);
    AppendLine(s.out, Released(t.id), 0);
    assert s.grants == prior + [t.id] && s.grants[|s.grants| - 1] == t.id;
    assert BankLines(u.out) == Transcript(prior, cs) + Session(t, prior, cs) + [Released(t.id)];
    assert Session(t, prior, cs) + [Released(t.id)] ==
      [Acquired(t.id), Ledger(t.id, BalanceAfter(prior, cs), BalanceAfter(s.grants, cs)), Released(t.id)];
  }

  lemma BooksRound(s: State, t': Thread, printed: int, cs: seq<Creation>)
    requires Inv(s) && Dispatchable(s) && Books(s, cs) && t'.id == s.rq[s.cur].id != s.owner
    ensures Books(LoopEnd(s, t', printed).0, cs)
  {
    var u := LoopEnd(s, t', printed).0;
    BooksSkip(s, u, u.rq[s.cur], [Value(t'.id, printed)], cs);
  }

  lemma BooksLoop(s: State, cs: seq<Creation>)
    requires Inv(s) && Dispatchable(s) && Books(s, cs) && !s.rq[s.cur].kind.BankOperation?
    ensures Books(Segment(s).0, cs)
  {
    var t := s.rq[s.cur];
    assert ReadyOk(t, s.owner);
    if t.kind.Fibonacci? {
      var u := FibonacciBody(NextIndex(t));
      BooksRound(s, u, u.y, cs);
    } else {
      var u := FactorialBody(NextIndex(t));
      BooksRound(s, u, u.x, cs);
    }
  }

  lemma BooksBlock(s: State, cs: seq<Creation>)
    requires Inv(s) && Dispatchable(s) && Books(s, cs) && Segment(s).1.Blocks?
    ensures Books(Segment(s).0, cs)
  {
    assert ReadyOk(s.rq[s.cur], s.owner);
    BooksSkip(s, Segment(s).0, Segment(s).0.rq[s.cur], [], cs);
  }

  lemma BooksSegment(s: State, cs: seq<Creation>)
    requires Inv(s) && Dispatchable(s) && Books(s, cs)
    requires Static(s, cs) && Startable(cs)
    ensures Books(Segment(s).0, cs)
  {
    var t := s.rq[s.cur];
    if !t.kind.BankOperation? {
      BooksLoop(s, cs);
    } else if Segment(s).1.Blocks? {
      BooksBlock(s, cs);
    } else {
      assert ReadyOk(t, s.owner);
      assert ArgOf(cs, t.id) == t.arg by {
        assert Origin(t) in cs;
        ArgOfMember(cs, Origin(t));
      }
      if t.at.AtStart? { BankTakes(s, Segment(s).0, cs); }
      else if t.at.AtYield2? { BankReleases(s, Segment(s).0, cs); }
      else if t.at.AtLock? { BankEnters(s, Segment(s).0, cs); }
      else { BankSettles(s, Segment(s).0, cs); }
    }
  }

  /** Moving tcbs about leaves the books alone. */
  lemma BooksMove(s: State, e: State, cs: seq<Creation>)
    requires Books(s, cs)
    requires e.owner == s.owner && e.out == s.out && e.grants == s.grants && e.balance == s.balance
    requires forall t :: t in e.rq && t.id == e.owner && e.owner != NO_OWNER ==> t in s.rq
    ensures Books(e, cs)
  {
  }

  /** Handing the lock over opens a session in which nothing is printed yet. */
  lemma BooksGrant(s: State, e: State, w: Thread, cs: seq<Creation>)
    requires Books(s, cs) && s.owner == NO_OWNER && w.at.AtLock? && 0 <= w.id
    requires e.owner == w.id && e.out == s.out && e.grants == s.grants + [w.id] && e.balance == s.balance
    requires forall t :: t in e.rq && t.id == w.id ==> t == w
    ensures Books(e, cs)
  {
  }

  lemma BooksEnter(s: State, rtv: int, cs: seq<Creation>)
    requires Dispatchable(s) && 1 <= rtv <= 3 && Books(s, cs) && Distinct(s) && WaitersOk(s)
    ensures Books(Enter(s, rtv), cs)
  {
    var e := Enter(s, rtv);
    EnterMoves(s, rtv);
    if s.owner == NO_OWNER && |s.wq| > 0 {
      assert s.wq[0] in s.wq;
      forall t | t in e.rq && t.id == s.wq[0].id ensures t == s.wq[0] { HandOffOwner(s, rtv, t); }
      BooksGrant(s, e, s.wq[0], cs);
    } else {
      assert forall t :: t in s.wq ==> t.id != s.owner;
      BooksMove(s, e, cs);
    }
  }

  lemma HandOffOwner(s: State, rtv: int, t: Thread)
    requires Dispatchable(s) && 1 <= rtv <= 3 && Distinct(s) && s.owner == NO_OWNER && |s.wq| > 0
    requires t in Enter(s, rtv).rq && t.id == s.wq[0].id
    ensures t == s.wq[0]
  {
    EnterMoves(s, rtv);
    DistinctSlots(s);
    assert s.wq[0] in s.wq;
    if t in s.wq {
      var k :| 0 <= k < |s.wq| && s.wq[k] == t;
    }
  }

  lemma BooksYield(u: State, sig: Signal, cs: seq<Creation>)
    requires Inv(u) && Dispatchable(u) && Books(u, cs)
    ensures Books(Enter(u.(out := u.out + [Caught(sig)]), 1), cs)
  {
  }

  lemma BooksStep(s: State, sig: Signal, cs: seq<Creation>)
    requires Inv(s) && Dispatchable(s) && Books(s, cs) && Static(s, cs) && Startable(cs)
    ensures Books(Step(s, sig), cs)
  {
    var (u, stop) := Segment(s);
    BooksSegment(s, cs);
    SegmentKeepsIds(s);
    match stop
    case Yields =>
      YieldKeeps(s);
      BooksYield(u, sig, cs);
    case Blocks =>
      BlockLeaves(s);
      BooksEnter(u, 2, cs);
    case Exits =>
      ExitLeaves(s);
      assert IdBag(u) == IdBag(s);
      BooksEnter(u, 3, cs);
  }

  // ---------------------------------------------------------- one call each

  lemma CallsPut(s: State, u: State, t': Thread, cs: seq<Creation>)
    requires Inv(s) && Dispatchable(s) && CallsOnce(s, cs) && Static(s, cs)
    requires t'.id == s.rq[s.cur].id && t'.kind == s.rq[s.cur].kind
    requires u.rq == s.rq[s.cur := t'] && u.gone == s.gone
    requires if Holds(t') && !Holds(s.rq[s.cur]) then u.calls == s.calls + [t'.id]
             else u.calls == s.calls && Holds(t') == Holds(s.rq[s.cur])
    ensures CallsOnce(u, cs)
  {
    var t := s.rq[s.cur];
    DistinctSlots(s);
    PutMembers(s.rq, s.cur, t');
    assert Holds(t) <==> t.id in s.calls;
    assert Origin(t) in cs;
    forall id | id in u.calls ensures exists c :: c in cs && c.kind.BankOperation? && c.id == id {
      if id !in s.calls { assert Origin(t).kind.BankOperation? && Origin(t).id == id; }
    }
  }

  lemma CallsSegment(s: State, cs: seq<Creation>)
    requires Inv(s) && Dispatchable(s) && CallsOnce(s, cs) && Static(s, cs)
    ensures CallsOnce(Segment(s).0, cs)
  {
    var u := Segment(s).0;
    assert ReadyOk(s.rq[s.cur], s.owner);
    SegmentKeepsIds(s);
    CallsPut(s, u, u.rq[s.cur], cs);
  }

  lemma CallsEnter(s: State, rtv: int, cs: seq<Creation>)
    requires Dispatchable(s) && 1 <= rtv <= 3 && CallsOnce(s, cs)
    requires forall w :: w in s.wq ==> Holds(w) && w.id in s.calls
    requires rtv == 3 && s.rq[s.cur].kind.BankOperation? ==> Holds(s.rq[s.cur])
    ensures CallsOnce(Enter(s, rtv), cs)
  {
  }

  lemma CallsExit(s: State)
    requires Inv(s) && Dispatchable(s)
    ensures var (u, stop) := Segment(s);
            stop.Exits? && u.rq[s.cur].kind.BankOperation? ==> Holds(u.rq[s.cur])
  {
  }

  lemma CallsStep(s: State, sig: Signal, cs: seq<Creation>)
    requires Inv(s) && Dispatchable(s) && CallsOnce(s, cs) && Static(s, cs) && Fifo(s)
    ensures CallsOnce(Step(s, sig), cs)
  {
    var (u, stop) := Segment(s);
    CallsSegment(s, cs);
    CallsExit(s);
    CallsWaiting(s, u);
    if stop.Yields? {
      CallsEnter(u.(out := u.out + [Caught(sig)]), 1, cs);
    } else {
      CallsEnter(u, Rtv(stop), cs);
    }
  }

  lemma CallsWaiting(s: State, u: State)
    requires WaitersOk(s) && Fifo(s) && u.wq == s.wq && s.calls <= u.calls
    ensures forall w :: w in u.wq ==> Holds(w) && w.id in u.calls
  {
    forall w | w in u.wq ensures Holds(w) && w.id in u.calls {
      InIds(s.wq, w);
      assert w.id in s.calls;
    }
  }

  // ------------------------------------------------------------------- output

  lemma OutputOthers(s: State, u: State, id: int)
    requires Dispatchable(s) && s.rq[s.cur].id != id && u == Segment(s).0
    ensures LinesOf(u.out, id) == LinesOf(s.out, id)
  {
    SegmentPrints(s);
    if u.out != s.out {
      var l :| u.out == s.out + [l] && IsOf(l, s.rq[s.cur].id);
      AppendLine(s.out, l, id);
    }
  }

  lemma PrintOne(t: Thread, t': Thread, out: seq<Line>, l: Line)
    requires PrintedOk(t, out) && !t.kind.BankOperation? && 0 <= t.i
    requires t'.id == t.id && t'.kind == t.kind && t'.i == t.i + 1
    requires l == Value(t.id, if t.kind.Fibonacci? then Fib(t'.i) else Fact(t'.i))
    ensures PrintedOk(t', out + [l])
  {
  }

  /** The number a round prints is the next one of its sequence. */
  lemma RoundValue(t: Thread)
    requires Sound(t) && !t.kind.BankOperation?
    ensures NextIndex(t).i == t.i + 1
    ensures t.kind.Fibonacci? ==> FibonacciBody(NextIndex(t)).y == Fib(t.i + 1)
    ensures t.kind.Factorial? ==> FactorialBody(NextIndex(t)).x == Fact(t.i + 1)
  {
  }

  /** One more round, one more number of the sequence. */
  lemma OutputOwn(s: State)
    requires Dispatchable(s) && Sound(s.rq[s.cur]) && PrintedOk(s.rq[s.cur], s.out)
    ensures PrintedOk(Segment(s).0.rq[s.cur], Segment(s).0.out)
  {
    var t := s.rq[s.cur];
    if t.kind.Fibonacci? {
      RoundValue(t);
      PrintOne(t, Segment(s).0.rq[s.cur], s.out, Value(t.id, FibonacciBody(NextIndex(t)).y));
    } else if t.kind.Factorial? {
      RoundValue(t);
      PrintOne(t, Segment(s).0.rq[s.cur], s.out, Value(t.id, FactorialBody(NextIndex(t)).x));
    }
  }

  lemma OutputSegment(s: State)
    requires Inv(s) && Dispatchable(s) && Output(s)
    ensures Output(Segment(s).0)
  {
    var u := Segment(s).0;
    var t, t' := s.rq[s.cur], Segment(s).0.rq[s.cur];
    assert ReadyOk(t, s.owner);
    SegmentKeepsIds(s);
    DistinctSlots(s);
    PutMembers(s.rq, s.cur, t');
    OutputOwn(s);
    assert u.rq == s.rq[s.cur := t'];
    forall w | w in u.rq ensures PrintedOk(w, u.out) {
      if w != t' { OutputOthers(s, u, w.id); assert PrintedOk(w, s.out); }
    }
    forall w | w in u.gone ensures PrintedOk(w, u.out) {
      assert t in s.rq;
      OutputOthers(s, u, w.id);
      assert PrintedOk(w, s.out);
    }
  }

  lemma OutputCaught(u: State, sig: Signal)
    requires Output(u)
    ensures Output(u.(out := u.out + [Caught(sig)]))
  {
  }

  lemma OutputEnter(s: State, rtv: int)
    requires Dispatchable(s) && 1 <= rtv <= 3 && Output(s) && WaitersOk(s)
    requires rtv == 3 && !s.rq[s.cur].kind.BankOperation? ==> s.rq[s.cur].i == s.rq[s.cur].arg
    ensures Output(Enter(s, rtv))
  {
  }

  lemma OutputStep(s: State, sig: Signal)
    requires Inv(s) && Dispatchable(s) && Output(s)
    ensures Output(Step(s, sig))
  {
    var (u, stop) := Segment(s);
    OutputSegment(s);
    match stop
    case Yields =>
      YieldKeeps(s);
      OutputCaught(u, sig);
      OutputEnter(u.(out := u.out + [Caught(sig)]), 1);
    case Blocks =>
      BlockLeaves(s);
      OutputEnter(u, 2);
    case Exits =>
      ExitLeaves(s);
      assert ReadyOk(s.rq[s.cur], s.owner);
      SegmentSound(s);
      SegmentPrints(s);
      OutputEnter(u, 3);
  }

  // ----------------------------------------------------------------- all runs

  lemma CreateHistory(cs: seq<Creation>)
    requires Startable(cs)
    ensures History(Create(cs), cs)
  {
    var s := Create(cs);
    assert s.grants == [] && s.calls == [] && s.wq == [] && s.gone == [] && s.owner == NO_OWNER &&
           s.balance == OPENING_BALANCE by { CreateIds(cs); }
    CreateThreads(cs);
    CreateBank(cs);
    assert Static(s, cs) && Fifo(s) && CallsOnce(s, cs);
  }

  lemma CreateThreads(cs: seq<Creation>)
    requires Startable(cs)
    ensures var s := Create(cs);
            forall t :: t in s.rq ==> Origin(t) in cs && PrintedOk(t, s.out) && !Holds(t)
  {
    CreateIds(cs);
    var s := Create(cs);
    forall t | t in s.rq ensures Origin(t) in cs && PrintedOk(t, s.out) && !Holds(t) {
      var k :| 0 <= k < |cs| && s.rq[k] == t;
      assert Origin(t) == cs[k] && t.i == 0;
      CreateLines(cs, k);
      assert Values(t.kind, t.id, 0) == [];
    }
  }

  lemma {:induction false} CreateBank(cs: seq<Creation>)
    ensures BankLines(Create(cs).out) == []
  {
    if cs != [] {
      var n := |cs| - 1;
      CreateBank(cs[..n]);
      AppendLine(Create(cs[..n]).out, Setup(cs[n].id, cs[n].kind), 0);
    }
  }

  lemma {:induction false} CreateLines(cs: seq<Creation>, k: nat)
    requires k < |cs| && forall a, b :: 0 <= a < b < |cs| ==> cs[a].id != cs[b].id
    ensures LinesOf(Create(cs).out, cs[k].id) == [Setup(cs[k].id, cs[k].kind)]
  {
    var n := |cs| - 1;
    AppendLine(Create(cs[..n]).out, Setup(cs[n].id, cs[n].kind), cs[k].id);
    assert cs[k].id != cs[n].id || k == n;
    if k < n {
      CreateLines(cs[..n], k);
    } else {
      CreateNone(cs[..n], cs[k].id);
    }
  }

  lemma {:induction false} CreateNone(cs: seq<Creation>, id: int)
    requires forall k :: 0 <= k < |cs| ==> cs[k].id != id
    ensures LinesOf(Create(cs).out, id) == []
  {
    if cs != [] {
      var n := |cs| - 1;
      CreateNone(cs[..n], id);
      AppendLine(Create(cs[..n]).out, Setup(cs[n].id, cs[n].kind), id);
    }
  }

  lemma {:induction false} RunKeepsHistory(s: State, sigs: seq<Signal>, cs: seq<Creation>)
    requires Inv(s) && History(s, cs) && Startable(cs)
    ensures Inv(Run(s, sigs)) && History(Run(s, sigs), cs)
    decreases |sigs|
  {
    if sigs != [] && Dispatchable(s) {
      StepKeepsInv(s, sigs[0]);
      StaticStep(s, sigs[0], cs);
      FifoStep(s, sigs[0]);
      BooksStep(s, sigs[0], cs);
      CallsStep(s, sigs[0], cs);
      OutputStep(s, sigs[0]);
      RunKeepsHistory(Step(s, sigs[0]), sigs[1..], cs);
    }
  }

  // ------------------------------------------------------------- main results

  lemma HistoryOf(cs: seq<Creation>, sigs: seq<Signal>)
    requires Startable(cs)
    ensures Inv(Run(Create(cs), sigs)) && History(Run(Create(cs), sigs), cs)
  {
    CreateInv(cs);
    CreateHistory(cs);
    RunKeepsHistory(Create(cs), sigs, cs);
  }

  /** The owner is the last thread the lock was given to. */
  lemma OwnerLast(s: State, cs: seq<Creation>)
    requires LockInv(s) && Books(s, cs) && s.owner != NO_OWNER
    ensures s.grants != [] && s.grants[|s.grants| - 1] == s.owner
  {
    var h :| h in s.rq && h.id == s.owner;
    assert HolderOk(s, h, cs);
  }

  /** At any moment of any run the lock has been given to the first of its
      callers, in the order of their calls, and the others wait in that order;
      the last one served is the owner while there is one. */
  lemma FirstComeFirstServed(cs: seq<Creation>, sigs: seq<Signal>)
    requires Startable(cs)
    ensures var s := Run(Create(cs), sigs);
            && s.calls == s.grants + Ids(s.wq)
            && (forall a, b :: 0 <= a < b < |s.calls| ==> s.calls[a] != s.calls[b])
            && (s.owner != NO_OWNER ==> s.grants != [] && s.grants[|s.grants| - 1] == s.owner)
  {
    HistoryOf(cs, sigs);
    var s := Run(Create(cs), sigs);
    if s.owner != NO_OWNER { OwnerLast(s, cs); }
  }

  /** At any moment of any run a loop thread has printed its set-up line and the
      first numbers of its own sequence, one for each of its rounds; one that has
      exited, its whole sequence. */
  lemma NonInterference(cs: seq<Creation>, sigs: seq<Signal>)
    requires Startable(cs)
    ensures var s := Run(Create(cs), sigs);
            forall t :: t in s.rq && !t.kind.BankOperation? ==>
              0 <= t.i < t.arg && LinesOf(s.out, t.id) == [Setup(t.id, t.kind)] + Values(t.kind, t.id, t.i)
    ensures var s := Run(Create(cs), sigs);
            forall t :: t in s.gone && !t.kind.BankOperation? ==>
              0 < t.arg && LinesOf(s.out, t.id) == [Setup(t.id, t.kind)] + Values(t.kind, t.id, t.arg)
  {
    HistoryOf(cs, sigs);
    var s := Run(Create(cs), sigs);
    forall t | t in s.rq && !t.kind.BankOperation?
      ensures 0 <= t.i < t.arg && LinesOf(s.out, t.id) == [Setup(t.id, t.kind)] + Values(t.kind, t.id, t.i)
    {
      assert ReadyOk(t, s.owner) && PrintedOk(t, s.out);
    }
    forall t | t in s.gone && !t.kind.BankOperation?
      ensures 0 < t.arg && LinesOf(s.out, t.id) == [Setup(t.id, t.kind)] + Values(t.kind, t.id, t.arg)
    {
      FreedPrinted(cs, s, t);
    }
  }

  lemma FreedPrinted(cs: seq<Creation>, s: State, t: Thread)
    requires Startable(cs) && Static(s, cs) && Output(s) && t in s.gone && !t.kind.BankOperation?
    ensures 0 < t.arg && LinesOf(s.out, t.id) == [Setup(t.id, t.kind)] + Values(t.kind, t.id, t.arg)
  {
    assert Origin(t) in cs;
    assert PrintedOk(t, s.out);
  }

  /** At any moment of any run the bank lines are the beginning of the sequential
      transcript of the threads served so far, and all of it while the lock is
      free. */
  lemma BankIsSequential(cs: seq<Creation>, sigs: seq<Signal>)
    requires Startable(cs)
    ensures var s := Run(Create(cs), sigs);
            && BankLines(s.out) <= Transcript(s.grants, cs)
            && (s.owner == NO_OWNER ==> BankLines(s.out) == Transcript(s.grants, cs))
  {
    HistoryOf(cs, sigs);
    var s := Run(Create(cs), sigs);
    if s.owner != NO_OWNER {
      var h :| h in s.rq && h.id == s.owner;
      assert HolderOk(s, h, cs);
      SessionPrefix(h, s.grants[..|s.grants| - 1], cs);
    }
  }

  lemma SessionPrefix(t: Thread, prior: seq<int>, cs: seq<Creation>)
    ensures Transcript(prior, cs) + Session(t, prior, cs) <= Transcript(prior + [t.id], cs)
  {
  }
}
