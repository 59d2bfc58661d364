/** The scheduler, the macros of `threadtools.h` and the thread functions over
    the program's own data: two fixed arrays of tcb references with their sizes,
    a cursor, tcbs whose fields are overwritten, and the shared bank. Every
    method computes the function of `ThreadModel` that specifies it. */
module SchedulerHeap {
  import opened ThreadModel
  import opened ThreadQueues
  import opened LockDiscipline
  import opened LockHistory
  import opened DispatchOrder
  import opened ThreadProgress

  class Tcb {
    const id: int
    const kind: Kind
    const arg: int
    var i: int
    var x: int
    var y: int
    var environment: Resume

    constructor (c: Creation)
      ensures Val() == Fresh(c)
    {
      id, kind, arg := c.id, c.kind, c.arg;
      i, x, y := 0, 0, 0;
      environment := AtStart;
    }

    function Val(): Thread
      reads this
    {
      Thread(id, kind, arg, i, x, y, environment)
    }
  }

  class Bank {
    var balance: int
    var lockOwner: int

    constructor ()
      ensures balance == OPENING_BALANCE && lockOwner == NO_OWNER
    {
      balance, lockOwner := OPENING_BALANCE, NO_OWNER;
    }
  }

  class Scheduler {
    const readyQueue: array<Tcb?>
    const waitingQueue: array<Tcb?>
    const bank: Bank
    var rqSize: int
    var rqCurrent: int
    var wqSize: int
    var out: seq<Line>

    /** The state of `ThreadModel` this object stands for, kept up to date by
        every method; `Valid` ties it to the real fields. */
    ghost var model: State

    /** Every tcb `ThreadSetup` has allocated. */
    ghost var tcbs: set<Tcb>

    /** The first `n` slots of an array hold the threads `q`. */
    ghost predicate Slots(a: array<Tcb?>, n: int, q: seq<Thread>)
      reads a, a[..], `tcbs
    {
      && 0 <= n <= a.Length && n == |q|
      && (forall k :: 0 <= k < n ==> a[k] != null && a[k] in tcbs && a[k].Val() == q[k])
    }

    ghost predicate Valid()
      reads this, bank, readyQueue, waitingQueue, readyQueue[..], waitingQueue[..]
    {
      && readyQueue != waitingQueue
      && readyQueue.Length == THREAD_MAX && waitingQueue.Length == THREAD_MAX
      && rqSize + wqSize <= THREAD_MAX
      && Slots(readyQueue, rqSize, model.rq)
      && Slots(waitingQueue, wqSize, model.wq)
      && rqCurrent == model.cur
      && bank.lockOwner == model.owner && bank.balance == model.balance
      && out == model.out
    }

    constructor ()
      ensures Valid() && fresh(readyQueue) && fresh(waitingQueue) && fresh(bank)
      ensures model == BOOT && tcbs == {}
    {
      readyQueue := new Tcb?[THREAD_MAX](_ => null);
      waitingQueue := new Tcb?[THREAD_MAX](_ => null);
      bank := new Bank();
      rqSize, rqCurrent, wqSize := 0, 0, 0;
      out := [];
      model, tcbs := BOOT, {};
    }

    method ThreadSetup(c: Creation)
      requires Valid() && rqSize + wqSize < THREAD_MAX
      modifies this, readyQueue
      ensures Valid() && model == ThreadModel.ThreadSetup(old(model), c)
      ensures tcbs >= old(tcbs) && fresh(tcbs - old(tcbs))
    {
      var info := new Tcb(c);
      readyQueue[rqSize] := info;
      rqSize := rqSize + 1;
      out := out + [Setup(c.id, c.kind)];
      model, tcbs := ThreadModel.ThreadSetup(model, c), tcbs + {info};
    }

    // ----------------------------------------------------------- the scheduler

    /** The loop of step 2: every waiter moves up one slot. */
    method ShiftWaiting()
      requires 0 < wqSize <= waitingQueue.Length
      modifies waitingQueue
      ensures forall k :: 0 <= k < wqSize - 1 ==> waitingQueue[k] == old(waitingQueue[k + 1])
    {
      for i := 0 to wqSize - 1
        invariant forall k :: 0 <= k < i ==> waitingQueue[k] == old(waitingQueue[k + 1])
        invariant forall k :: i <= k < wqSize ==> waitingQueue[k] == old(waitingQueue[k])
      {
        waitingQueue[i] := waitingQueue[i + 1];
      }
    }

    /** Step 2: hand a free lock to the first waiter. */
    method PassLock()
      requires Valid()
      modifies this, readyQueue, waitingQueue, bank
      ensures Valid() && model == HandOff(old(model)) && tcbs == old(tcbs)
    {
      if bank.lockOwner == NO_OWNER && wqSize > 0 {
        readyQueue[rqSize] := waitingQueue[0];
        rqSize := rqSize + 1;
        bank.lockOwner := waitingQueue[0].id;
        ShiftWaiting();
        wqSize := wqSize - 1;
        model := HandOff(model);
      }
    }

    /** Step 3 for a thread that blocks: it moves to the end of the waiting
        array and the last ready thread takes its slot. */
    method BlockRunning()
      requires Valid() && rqCurrent < rqSize
      modifies this, readyQueue, waitingQueue
      ensures Valid() && tcbs == old(tcbs)
      ensures model == DropCurrent(old(model)).(wq := old(model.wq) + [old(model.rq[model.cur])])
    {
      model := DropCurrent(model).(wq := model.wq + [model.rq[model.cur]]);
      if rqCurrent < rqSize - 1 {
        waitingQueue[wqSize] := readyQueue[rqCurrent];
        wqSize := wqSize + 1;
        readyQueue[rqCurrent] := readyQueue[rqSize - 1];
        rqSize := rqSize - 1;
      } else if rqCurrent == rqSize - 1 {
        waitingQueue[wqSize] := readyQueue[rqCurrent];
        wqSize := wqSize + 1;
        rqCurrent := 0;
        rqSize := rqSize - 1;
      }
    }

    /** Step 3 for a thread that exits: the last ready thread takes its slot. */
    method FreeRunning()
      requires Valid() && rqCurrent < rqSize
      modifies this, readyQueue
      ensures Valid() && tcbs == old(tcbs)
      ensures model == DropCurrent(old(model)).(gone := old(model.gone) + [old(model.rq[model.cur])])
    {
      model := DropCurrent(model).(gone := model.gone + [model.rq[model.cur]]);
      if rqCurrent < rqSize - 1 {
        readyQueue[rqCurrent] := readyQueue[rqSize - 1];
        rqSize := rqSize - 1;
      } else if rqCurrent == rqSize - 1 {
        rqCurrent := 0;
        rqSize := rqSize - 1;
      }
    }

    /** `scheduler()` entered through `sched_buf`, up to the dispatch. */
    method EnterScheduler(rtv: int)
      requires Valid() && rqCurrent < rqSize && 1 <= rtv <= 3
      modifies this, readyQueue, waitingQueue, bank
      ensures Valid() && model == Enter(old(model), rtv) && tcbs == old(tcbs)
    {
      PassLock();
      if rtv == 2 {
        BlockRunning();
      } else if rtv == 3 {
        FreeRunning();
      } else {
        rqCurrent := rqCurrent + 1;
        if rqCurrent >= rqSize {
          rqCurrent := 0;
        }
        model := model.(cur := rqCurrent);
      }
    }

    // ----------------------------------------------------------- the threads

    /** `RUNNING`. */
    function Running(): Tcb
      requires Valid() && rqCurrent < rqSize
      reads this, bank, readyQueue, waitingQueue, readyQueue[..], waitingQueue[..]
    {
      readyQueue[rqCurrent]
    }

    /** With distinct ids, the tcb at the cursor is in no other slot. */
    lemma RunningAlone()
      requires Valid() && rqCurrent < rqSize && Distinct(model)
      ensures forall k :: 0 <= k < rqSize && k != rqCurrent ==> readyQueue[k] != readyQueue[rqCurrent]
      ensures forall k :: 0 <= k < wqSize ==> waitingQueue[k] != readyQueue[rqCurrent]
    {
      DistinctSlots(model);
      forall k | 0 <= k < wqSize ensures waitingQueue[k] != readyQueue[rqCurrent] {
        assert model.wq[k] in model.wq && model.rq[model.cur] in model.rq;
      }
    }

    /** The index step and the body of the fibonacci loop. */
    method FibonacciRound(t: Tcb)
      modifies t
      ensures t.Val() == FibonacciBody(NextIndex(old(t.Val())))
    {
      t.i := if t.environment.AtStart? then 1 else t.i + 1;
      if t.i <= 2 {
        t.y := 1;
        t.x := 1;
      } else {
        var tmp := t.y;
        t.y := t.x + t.y;
        t.x := tmp;
      }
    }

    method FactorialRound(t: Tcb)
      modifies t
      ensures t.Val() == FactorialBody(NextIndex(old(t.Val())))
    {
      t.i := if t.environment.AtStart? then 1 else t.i + 1;
      if t.i == 1 {
        t.x := 1;
      } else {
        t.x := t.x * t.i;
      }
    }

    /** A loop thread's stretch: one round, one line, then exit or yield. */
    method LoopStretch() returns (stop: Stop)
      requires Valid() && rqCurrent < rqSize && Distinct(model) && !Running().kind.BankOperation?
      modifies this, Running()
      ensures Valid() && (model, stop) == Segment(old(model)) && tcbs == old(tcbs)
    {
      RunningAlone();
      var t := readyQueue[rqCurrent];
      if t.kind.Fibonacci? {
        FibonacciRound(t);
        out := out + [Value(t.id, t.y)];
      } else {
        FactorialRound(t);
        out := out + [Value(t.id, t.x)];
      }
      if t.i == t.arg {
        stop := Exits;
      } else {
        t.environment := AtLoop;
        stop := Yields;
      }
      model := Segment(model).0;
    }

    /** The `lock()` macro: take a free lock, or block without ever retesting. */
    method Lock(t: Tcb) returns (blocked: bool)
      modifies t, bank
      ensures blocked <==> old(bank.lockOwner) != NO_OWNER
      ensures bank.balance == old(bank.balance)
      ensures bank.lockOwner == if blocked then old(bank.lockOwner) else t.id
      ensures t.Val() == if blocked then old(t.Val()).(at := AtLock) else old(t.Val())
    {
      if bank.lockOwner == NO_OWNER {
        bank.lockOwner := t.id;
        blocked := false;
      } else {
        t.environment := AtLock;
        blocked := true;
      }
    }

    /** The `unlock()` macro. */
    method Unlock(t: Tcb)
      modifies bank
      ensures bank.balance == old(bank.balance)
      ensures bank.lockOwner == if old(bank.lockOwner) == t.id then NO_OWNER else old(bank.lockOwner)
    {
      if bank.lockOwner == t.id {
        bank.lockOwner := NO_OWNER;
      }
    }

    /** Step 2 of `bank_operation`. */
    method Operate(arg: int)
      modifies bank
      ensures bank.balance == Settle(old(bank.balance), arg) && bank.lockOwner == old(bank.lockOwner)
    {
      if arg > 0 {
        bank.balance := bank.balance + arg;
      } else if arg < 0 && bank.balance >= -arg {
        bank.balance := bank.balance - -arg;
      }
    }

    /** A bank thread's stretch, from where its environment resumes. */
    method BankStretch() returns (stop: Stop)
      requires Valid() && rqCurrent < rqSize && Distinct(model) && Running().kind.BankOperation?
      modifies this, bank, Running()
      ensures Valid() && (model, stop) == Segment(old(model)) && tcbs == old(tcbs)
    {
      RunningAlone();
      var t := readyQueue[rqCurrent];
      model := Segment(model).0;
      if t.environment.AtYield1? {
        var preBalance := bank.balance;
        Operate(t.arg);
        out := out + [Ledger(t.id, preBalance, bank.balance)];
        t.environment := AtYield2;
        stop := Yields;
      } else if t.environment.AtYield2? {
        Unlock(t);
        if bank.lockOwner == NO_OWNER {
          out := out + [Released(t.id)];
        }
        stop := Exits;
      } else {
        var blocked := false;
        if t.environment.AtStart? {
          blocked := Lock(t);
        }
        if blocked {
          stop := Blocks;
        } else {
          out := out + [Acquired(t.id)];
          t.environment := AtYield1;
          stop := Yields;
        }
      }
    }

    /** The dispatched thread runs to its next suspension. */
    method RunThread() returns (stop: Stop)
      requires Valid() && rqCurrent < rqSize && Distinct(model)
      modifies this, bank, Running()
      ensures Valid() && (model, stop) == Segment(old(model)) && tcbs == old(tcbs)
      ensures rqCurrent < rqSize
    {
      SegmentKeepsIds(model);
      if readyQueue[rqCurrent].kind.BankOperation? {
        stop := BankStretch();
      } else {
        stop := LoopStretch();
      }
    }

    /** One stretch, and the scheduler entered as its suspension asks. */
    method Stretch(sig: Signal)
      requires Valid() && rqCurrent < rqSize && Distinct(model)
      modifies this, bank, readyQueue, waitingQueue, Running()
      ensures Valid() && model == Step(old(model), sig) && tcbs == old(tcbs)
    {
      var stop := RunThread();
      match stop {
        case Yields =>
          if !sig.NoSignal? {
            out := out + [Caught(sig)];
            model := model.(out := out);
            EnterScheduler(1);
          }
        case Blocks => EnterScheduler(2);
        case Exits => EnterScheduler(3);
      }
    }
  }

  /** The bank threads, each once, in `order`, account for `out` and `balance`. */
  ghost predicate ServedInOrder(cs: seq<Creation>, order: seq<int>, out: seq<Line>, balance: int) {
    && (forall a, b :: 0 <= a < b < |order| ==> order[a] != order[b])
    && (forall c :: c in cs ==> (c.kind.BankOperation? <==> c.id in order))
    && BankLines(out) == Transcript(order, cs)
    && balance == BalanceAfter(order, cs)
  }

  /** `init_bank` and `init_threads` for the threads `cs`. */
  method CreateThreads(cs: seq<Creation>) returns (scheduler: Scheduler)
    requires |cs| <= THREAD_MAX
    ensures scheduler.Valid() && scheduler.model == Create(cs)
    ensures fresh(scheduler) && fresh(scheduler.readyQueue) && fresh(scheduler.waitingQueue)
    ensures fresh(scheduler.bank) && fresh(scheduler.tcbs)
  {
    scheduler := new Scheduler();
    for k := 0 to |cs|
      invariant scheduler.Valid() && scheduler.model == Create(cs[..k])
      invariant fresh(scheduler) && fresh(scheduler.readyQueue) && fresh(scheduler.waitingQueue)
      invariant fresh(scheduler.bank) && fresh(scheduler.tcbs)
    {
      CreateIds(cs[..k]);
      assert cs[..k + 1][..k] == cs[..k];
      scheduler.ThreadSetup(cs[k]);
    }
    assert cs[..|cs|] == cs;
  }

  /** The signal pending at the yield of stretch `k`. */
  function SignalAt(signals: nat -> Signal, k: nat): Signal {
    signals(k)
  }

  /** The signals pending at the first `n` yields. */
  ghost function FirstSignals(signals: nat -> Signal, n: nat): seq<Signal> {
    seq(n, k requires 0 <= k => SignalAt(signals, k))
  }

  lemma NextSignal(signals: nat -> Signal, n: nat)
    ensures FirstSignals(signals, n + 1) == FirstSignals(signals, n) + [SignalAt(signals, n)]
    ensures FirstSignals(signals, 0) == []
  {
  }

  /** `start_threading`: it dispatches until no thread is left. */
  method StartThreading(scheduler: Scheduler, signals: nat -> Signal)
    returns (stretches: nat, ghost sigs: seq<Signal>)
    requires scheduler.Valid() && Inv(scheduler.model)
    modifies scheduler, scheduler.readyQueue, scheduler.waitingQueue, scheduler.bank, scheduler.tcbs
    ensures scheduler.Valid() && scheduler.model == Run(old(scheduler.model), sigs)
    ensures sigs == FirstSignals(signals, stretches)
    ensures Done(scheduler.model) && stretches <= Total(old(scheduler.model))
  {
    stretches, sigs := 0, [];
    NextSignal(signals, 0);
    while scheduler.rqSize > 0
      invariant scheduler.Valid() && scheduler.model == Run(old(scheduler.model), sigs)
      invariant sigs == FirstSignals(signals, stretches)
      invariant scheduler.tcbs == old(scheduler.tcbs)
      invariant Inv(scheduler.model) && stretches + Total(scheduler.model) <= Total(old(scheduler.model))
      decreases Total(scheduler.model)
    {
      var sig := SignalAt(signals, stretches);
      StepKeepsInv(scheduler.model, sig);
      StepWorks(scheduler.model, sig);
      RunSnoc(old(scheduler.model), sigs, sig);
      NextSignal(signals, stretches);
      sigs := sigs + [sig];
      scheduler.Stretch(sig);
      stretches := stretches + 1;
    }
  }

  /** The run under `sigs` that the program computed. */
  ghost predicate Computed(cs: seq<Creation>, sigs: seq<Signal>, out: seq<Line>, balance: int) {
    var s := Run(Create(cs), sigs);
    Done(s) && out == s.out && balance == s.balance && ServedInOrder(cs, s.calls, out, balance)
  }

  /** The whole program for the threads `cs`. It ends; every loop thread has
      printed its sequence; and the bank lines and the balance are those of
      serving the `lock()` calls of its run one by one, in their order. */
  method Program(cs: seq<Creation>, signals: nat -> Signal)
    returns (out: seq<Line>, balance: int, stretches: nat)
    requires Startable(cs)
    ensures stretches <= Budget(cs)
    ensures forall c :: c in cs && !c.kind.BankOperation? ==>
              LinesOf(out, c.id) == [Setup(c.id, c.kind)] + Values(c.kind, c.id, c.arg)
    ensures Computed(cs, FirstSignals(signals, stretches), out, balance)
  {
    var scheduler := CreateThreads(cs);
    CreateInv(cs);
    CreateTotal(cs);
    ghost var sigs;
    stretches, sigs := StartThreading(scheduler, signals);
    out, balance := scheduler.out, scheduler.bank.balance;
    DoneOutput(cs, sigs);
  }
}
