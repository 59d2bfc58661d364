/** The user-level thread library of HW3 as a machine over values: what one
    resumed stretch of a thread does, what one entry into the scheduler does,
    and what a whole run does. `SchedulerHeap` proves that the array code
    computes exactly these functions; the other scheduler modules prove
    properties of them. */
module ThreadModel {

  const THREAD_MAX: nat := 16
  const NO_OWNER: int := -1
  const OPENING_BALANCE: int := 500

  datatype Kind = Fibonacci | Factorial | BankOperation

  /** The place the environment saved in a tcb resumes at: right after
      `thread_setup`, after the yield of a loop body, inside `lock()`, or after
      the first or second yield of a bank thread. */
  datatype Resume = AtStart | AtLoop | AtLock | AtYield1 | AtYield2

  /** A tcb together with its saved environment. */
  datatype Thread = Thread(id: int, kind: Kind, arg: int, i: int, x: int, y: int, at: Resume)

  /** What is pending when a yield unblocks the signals. */
  datatype Signal = NoSignal | SigTstp | SigAlrm

  /** Everything the program prints. */
  datatype Line =
    | Setup(id: int, kind: Kind)
    | Value(id: int, value: int)
    | Acquired(id: int)
    | Ledger(id: int, pre: int, post: int)
    | Released(id: int)
    | Caught(signal: Signal)

  /** The global variables, the output so far, and three history variables that
      no code reads: the ids in the order of their `lock()` calls, the ids in
      the order the lock was given to them, and the freed tcbs. */
  datatype State = State(
    rq: seq<Thread>, wq: seq<Thread>, cur: nat,
    owner: int, balance: int, out: seq<Line>,
    calls: seq<int>, grants: seq<int>, gone: seq<Thread>)

  predicate Dispatchable(s: State) {
    s.cur < |s.rq|
  }

  predicate Done(s: State) {
    s.rq == [] && s.wq == []
  }

  // ---------------------------------------------------------------- threads

  /** One pass through the loop of `fibonacci`; `t.i` is already the new index. */
  function FibonacciBody(t: Thread): Thread {
    if t.i <= 2 then t.(x := 1, y := 1) else t.(x := t.y, y := t.x + t.y)
  }

  function FactorialBody(t: Thread): Thread {
    if t.i == 1 then t.(x := 1) else t.(x := t.x * t.i)
  }

  function NextIndex(t: Thread): Thread {
    t.(i := if t.at.AtStart? then 1 else t.i + 1)
  }

  /** The balance after one bank operation. */
  function Settle(balance: int, arg: int): int {
    if arg > 0 then balance + arg
    else if arg < 0 && balance >= -arg then balance - -arg
    else balance
  }

  /** How a stretch of a thread ends: at a yield, blocked in `lock()`, or at
      `thread_exit()`. */
  datatype Stop = Yields | Blocks | Exits

  function Put(s: State, t: Thread, lines: seq<Line>): State
    requires Dispatchable(s)
  {
    s.(rq := s.rq[s.cur := t], out := s.out + lines)
  }

  /** The running thread, resumed where its environment says, up to the next
      point where it can lose the processor. */
  function Segment(s: State): (State, Stop)
    requires Dispatchable(s)
  {
    var t := s.rq[s.cur];
    match t.kind
    case Fibonacci =>
      var u := FibonacciBody(NextIndex(t));
      LoopEnd(s, u, u.y)
    case Factorial =>
      var u := FactorialBody(NextIndex(t));
      LoopEnd(s, u, u.x)
    case BankOperation =>
      match t.at
      case AtStart =>
        if s.owner == NO_OWNER then
          (Put(s, t.(at := AtYield1), [Acquired(t.id)])
             .(owner := t.id, calls := s.calls + [t.id], grants := s.grants + [t.id]), Yields)
        else
          (Put(s, t.(at := AtLock), []).(calls := s.calls + [t.id]), Blocks)
      case AtYield1 =>
        var post := Settle(s.balance, t.arg);
        (Put(s, t.(at := AtYield2), [Ledger(t.id, s.balance, post)]).(balance := post), Yields)
      case AtYield2 =>
        var owner := if s.owner == t.id then NO_OWNER else s.owner;
        (Put(s, t, if owner == NO_OWNER then [Released(t.id)] else []).(owner := owner), Exits)
      case _ =>
        (Put(s, t.(at := AtYield1), [Acquired(t.id)]), Yields)
  }

  function LoopEnd(s: State, u: Thread, printed: int): (State, Stop)
    requires Dispatchable(s)
  {
    if u.i == u.arg then
      (Put(s, u, [Value(u.id, printed)]), Exits)
    else
      (Put(s, u.(at := AtLoop), [Value(u.id, printed)]), Yields)
  }

  // -------------------------------------------------------------- scheduler

  /** Removal by moving the last element into the hole. */
  function Without<T>(q: seq<T>, k: nat): seq<T>
    requires k < |q|
  {
    q[k := q[|q| - 1]][..|q| - 1]
  }

  /** A free lock goes straight to the thread that has waited longest. */
  function HandOff(s: State): State {
    if s.owner == NO_OWNER && |s.wq| > 0 then
      s.(rq := s.rq + [s.wq[0]], wq := s.wq[1..], owner := s.wq[0].id, grants := s.grants + [s.wq[0].id])
    else s
  }

  function DropCurrent(s: State): State
    requires Dispatchable(s)
  {
    s.(rq := Without(s.rq, s.cur), cur := if s.cur == |s.rq| - 1 then 0 else s.cur)
  }

  /** One entry into `scheduler()` through `sched_buf`, up to the dispatch. */
  function Enter(s: State, rtv: int): State
    requires Dispatchable(s) && 1 <= rtv <= 3
  {
    var h := HandOff(s);
    var t := s.rq[s.cur];
    if rtv == 1 then h.(cur := if h.cur + 1 >= |h.rq| then 0 else h.cur + 1)
    else if rtv == 2 then DropCurrent(h).(wq := h.wq + [t])
    else DropCurrent(h).(gone := h.gone + [t])
  }

  function Rtv(stop: Stop): int {
    match stop case Yields => 1 case Blocks => 2 case Exits => 3
  }

  /** Does this stretch end with an entry into the scheduler? */
  predicate Enters(s: State, sig: Signal)
    requires Dispatchable(s)
  {
    Segment(s).1.Yields? ==> !sig.NoSignal?
  }

  /** The dispatched thread runs one stretch. At a yield the signal `sig` may be
      pending; without one the thread simply runs on. */
  function Step(s: State, sig: Signal): State
    requires Dispatchable(s)
  {
    var (u, stop) := Segment(s);
    if stop.Yields? && sig.NoSignal? then u
    else if stop.Yields? then Enter(u.(out := u.out + [Caught(sig)]), 1)
    else Enter(u, Rtv(stop))
  }

  /** A run under the signals `sigs`, one for each stretch. It stops early when
      the last thread has exited, or where the next dispatch would read a slot
      past the ready queue. */
  function Run(s: State, sigs: seq<Signal>): State
    decreases |sigs|
  {
    if sigs == [] || !Dispatchable(s) then s else Run(Step(s, sigs[0]), sigs[1..])
  }

  // --------------------------------------------------------------- creation

  datatype Creation = Creation(kind: Kind, id: int, arg: int)

  function Fresh(c: Creation): Thread {
    Thread(c.id, c.kind, c.arg, 0, 0, 0, AtStart)
  }

  function ThreadSetup(s: State, c: Creation): State {
    s.(rq := s.rq + [Fresh(c)], out := s.out + [Setup(c.id, c.kind)])
  }

  const BOOT: State := State([], [], 0, NO_OWNER, OPENING_BALANCE, [], [], [], [])

  function Create(cs: seq<Creation>): State {
    if cs == [] then BOOT else ThreadSetup(Create(cs[..|cs| - 1]), cs[|cs| - 1])
  }

  function InitThreads(fib: int, fact: int, bank1: int, bank2: int): seq<Creation> {
    (if fib > 0 then [Creation(Fibonacci, 0, fib)] else []) +
    (if fact > 0 then [Creation(Factorial, 1, fact)] else []) +
    (if bank1 != 0 then [Creation(BankOperation, 2, bank1)] else []) +
    (if bank2 != 0 then [Creation(BankOperation, 3, bank2)] else [])
  }

  /** What the thread library needs of the threads created before it is started. */
  ghost predicate Startable(cs: seq<Creation>) {
    && 0 < |cs| <= THREAD_MAX
    && (forall a, b :: 0 <= a < b < |cs| ==> cs[a].id != cs[b].id)
    && (forall c :: c in cs ==> 0 <= c.id && (!c.kind.BankOperation? ==> c.arg > 0))
  }
}
