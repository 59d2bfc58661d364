/** `main` of HW3 for its four arguments: which threads there are, and what each
    of them and the bank print. */
module MainProgram {
  import opened ThreadModel
  import opened ThreadQueues
  import opened LockDiscipline
  import opened LockHistory
  import opened ThreadProgress
  import opened SchedulerHeap

  /** Exactly the threads whose guards hold, in the order of their ids. */
  lemma MainThreads(fib: int, fact: int, bank1: int, bank2: int)
    ensures var cs := InitThreads(fib, fact, bank1, bank2);
            && (forall c :: c in cs <==>
                  || (c == Creation(Fibonacci, 0, fib) && fib > 0)
                  || (c == Creation(Factorial, 1, fact) && fact > 0)
                  || (c == Creation(BankOperation, 2, bank1) && bank1 != 0)
                  || (c == Creation(BankOperation, 3, bank2) && bank2 != 0))
            && (forall a, b :: 0 <= a < b < |cs| ==> cs[a].id < cs[b].id)
  {
  }

  // ------------------------------------------------------------- the set-up lines

  lemma StepGrows(s: State, sig: Signal)
    requires Dispatchable(s)
    ensures s.out <= Step(s, sig).out
  {
    SegmentPrints(s);
    StepOut(s, sig);
  }

  lemma EnterOut(s: State, rtv: int)
    requires Dispatchable(s) && 1 <= rtv <= 3
    ensures Enter(s, rtv).out == s.out
  {
  }

  /** After the stretch itself only a handler prints. */
  lemma StepOut(s: State, sig: Signal)
    requires Dispatchable(s)
    ensures var u, e := Segment(s).0, Step(s, sig); e.out == u.out || e.out == u.out + [Caught(sig)]
  {
    var (u, stop) := Segment(s);
    if stop.Yields? { EnterOut(u.(out := u.out + [Caught(sig)]), 1); } else { EnterOut(u, Rtv(stop)); }
  }

  lemma {:induction false} RunGrows(s: State, sigs: seq<Signal>)
    ensures s.out <= Run(s, sigs).out
    decreases |sigs|
  {
    if sigs != [] && Dispatchable(s) {
      StepGrows(s, sigs[0]);
      RunGrows(Step(s, sigs[0]), sigs[1..]);
    }
  }

  lemma {:induction false} SetupOf(cs: seq<Creation>, k: nat)
    requires k < |cs|
    ensures |Create(cs).out| == |cs| && Create(cs).out[k] == Setup(cs[k].id, cs[k].kind)
  {
    var n := |cs| - 1;
    if k < n {
      SetupOf(cs[..n], k);
    } else if n > 0 {
      SetupOf(cs[..n], 0);
    }
  }

  /** An output begins with the set-up lines of its threads, in their order. */
  ghost predicate BeginsWithSetups(cs: seq<Creation>, out: seq<Line>) {
    |cs| <= |out| && forall k :: 0 <= k < |cs| ==> out[k] == Setup(cs[k].id, cs[k].kind)
  }

  lemma RunBegins(cs: seq<Creation>, sigs: seq<Signal>)
    requires cs != []
    ensures BeginsWithSetups(cs, Run(Create(cs), sigs).out)
  {
    RunGrows(Create(cs), sigs);
    forall k | 0 <= k < |cs| ensures |Create(cs).out| == |cs| && Create(cs).out[k] == Setup(cs[k].id, cs[k].kind) {
      SetupOf(cs, k);
    }
    SetupOf(cs, 0);
  }

  // ------------------------------------------------------- threads there are none of

  lemma {:induction false} NoLines(s: State, sigs: seq<Signal>, cs: seq<Creation>, id: int)
    requires Static(s, cs) && LinesOf(s.out, id) == [] && forall c :: c in cs ==> c.id != id
    ensures LinesOf(Run(s, sigs).out, id) == []
    decreases |sigs|
  {
    if sigs != [] && Dispatchable(s) {
      StaticStep(s, sigs[0], cs);
      NoLinesStep(s, sigs[0], cs, id);
      NoLines(Step(s, sigs[0]), sigs[1..], cs, id);
    }
  }

  lemma NoLinesStep(s: State, sig: Signal, cs: seq<Creation>, id: int)
    requires Dispatchable(s) && Static(s, cs) && LinesOf(s.out, id) == [] && forall c :: c in cs ==> c.id != id
    ensures LinesOf(Step(s, sig).out, id) == []
  {
    var u := Segment(s).0;
    assert Origin(s.rq[s.cur]) in cs;
    OutputOthers(s, u, id);
    StepOut(s, sig);
    AppendLine(u.out, Caught(sig), id);
  }

  lemma NotCreated(cs: seq<Creation>, sigs: seq<Signal>, id: int)
    requires Startable(cs) && forall c :: c in cs ==> c.id != id
    ensures LinesOf(Run(Create(cs), sigs).out, id) == []
  {
    CreateHistory(cs);
    CreateNone(cs, id);
    NoLines(Create(cs), sigs, cs, id);
  }

  // --------------------------------------------------------------- the bank's lines

  /** The balance after an operation: what it asks for, if that leaves no debt. */
  function Covered(balance: int, amount: int): int {
    if balance + amount < 0 then balance else balance + amount
  }

  function Service(id: int, balance: int, amount: int): seq<Line> {
    [Acquired(id), Ledger(id, balance, Covered(balance, amount)), Released(id)]
  }

  lemma ServedOne(id: int, cs: seq<Creation>, amount: int)
    requires ArgOf(cs, id) == amount
    ensures Transcript([id], cs) == Service(id, 500, amount)
    ensures BalanceAfter([id], cs) == Covered(500, amount) >= 0
  {
    assert [id][..0] == [] && BalanceAfter([], cs) == 500;
  }

  lemma ServedTwo(first: int, second: int, cs: seq<Creation>, amount: int, amount': int)
    requires ArgOf(cs, first) == amount && ArgOf(cs, second) == amount'
    ensures var middle := Covered(500, amount);
            && Transcript([first, second], cs) == Service(first, 500, amount) + Service(second, middle, amount')
            && BalanceAfter([first, second], cs) == Covered(middle, amount')
  {
    ServedOne(first, cs, amount);
    assert [first, second][..1] == [first];
  }

  /** The bank threads among `cs` are 2 and 3, 2, 3 or none. */
  ghost predicate BankOutcome(out: seq<Line>, balance: int, bank1: int, bank2: int) {
    if bank1 != 0 && bank2 != 0 then
      || (BankLines(out) == Service(2, 500, bank1) + Service(3, Covered(500, bank1), bank2) &&
          balance == Covered(Covered(500, bank1), bank2))
      || (BankLines(out) == Service(3, 500, bank2) + Service(2, Covered(500, bank2), bank1) &&
          balance == Covered(Covered(500, bank2), bank1))
    else if bank1 != 0 then BankLines(out) == Service(2, 500, bank1) && balance == Covered(500, bank1)
    else if bank2 != 0 then BankLines(out) == Service(3, 500, bank2) && balance == Covered(500, bank2)
    else BankLines(out) == [] && balance == 500
  }

  function Item(ids: seq<int>, k: nat): int {
    if k < |ids| then ids[k] else NO_OWNER
  }

  /** A list of at most two known ids, each once. */
  lemma Orders(order: seq<int>, two: bool, three: bool)
    requires forall a, b :: 0 <= a < b < |order| ==> order[a] != order[b]
    requires forall id :: id in order <==> (id == 2 && two) || (id == 3 && three)
    ensures order == (if two then [2] else []) + (if three then [3] else []) || order == [3, 2]
    ensures order == [3, 2] ==> two && three
  {
    assert forall k :: 0 <= k < |order| ==> order[k] in order;
    var first, second, third := Item(order, 0), Item(order, 1), Item(order, 2);
    assert (2 in order <==> two) && (3 in order <==> three);
    if two { var a :| 0 <= a < |order| && order[a] == 2; }
    if three { var b :| 0 <= b < |order| && order[b] == 3; }
  }

  lemma MainBank(fib: int, fact: int, bank1: int, bank2: int, order: seq<int>, out: seq<Line>, balance: int)
    requires var cs := InitThreads(fib, fact, bank1, bank2);
             && (forall id :: id in order ==> exists c :: c in cs && c.kind.BankOperation? && c.id == id)
             && ServedInOrder(cs, order, out, balance)
    ensures BankOutcome(out, balance, bank1, bank2)
  {
    var cs := InitThreads(fib, fact, bank1, bank2);
    MainThreads(fib, fact, bank1, bank2);
    if bank1 != 0 { ArgOfMember(cs, Creation(BankOperation, 2, bank1)); }
    if bank2 != 0 { ArgOfMember(cs, Creation(BankOperation, 3, bank2)); }
    assert bank1 != 0 ==> Creation(BankOperation, 2, bank1) in cs;
    assert bank2 != 0 ==> Creation(BankOperation, 3, bank2) in cs;
    Orders(order, bank1 != 0, bank2 != 0);
    if bank1 != 0 {
      ServedOne(2, cs, bank1);
      if bank2 != 0 {
        ServedTwo(2, 3, cs, bank1, bank2);
        ServedTwo(3, 2, cs, bank2, bank1);
      }
    }
    if bank2 != 0 { ServedOne(3, cs, bank2); }
  }

  /** The lines of a loop thread: none if its argument fails the guard. */
  function LoopLines(kind: Kind, id: int, arg: int): seq<Line> {
    if arg > 0 then [Setup(id, kind)] + Values(kind, id, arg) else []
  }

  lemma MainLoops(fib: int, fact: int, bank1: int, bank2: int, sigs: seq<Signal>)
    requires var cs := InitThreads(fib, fact, bank1, bank2); Startable(cs) && Done(Run(Create(cs), sigs))
    ensures var out := Run(Create(InitThreads(fib, fact, bank1, bank2)), sigs).out;
            LinesOf(out, 0) == LoopLines(Fibonacci, 0, fib) && LinesOf(out, 1) == LoopLines(Factorial, 1, fact)
  {
    var cs := InitThreads(fib, fact, bank1, bank2);
    MainThreads(fib, fact, bank1, bank2);
    LoopPrinted(cs, sigs, Creation(Fibonacci, 0, fib));
    LoopPrinted(cs, sigs, Creation(Factorial, 1, fact));
  }

  lemma LoopPrinted(cs: seq<Creation>, sigs: seq<Signal>, c: Creation)
    requires Startable(cs) && Done(Run(Create(cs), sigs)) && !c.kind.BankOperation?
    requires if c.arg > 0 then c in cs else forall d :: d in cs ==> d.id != c.id
    ensures LinesOf(Run(Create(cs), sigs).out, c.id) == LoopLines(c.kind, c.id, c.arg)
  {
    if c.arg > 0 { DoneOutput(cs, sigs); } else { NotCreated(cs, sigs, c.id); }
  }

  lemma MainServes(fib: int, fact: int, bank1: int, bank2: int, sigs: seq<Signal>)
    requires var cs := InitThreads(fib, fact, bank1, bank2); Startable(cs) && Done(Run(Create(cs), sigs))
    ensures var s := Run(Create(InitThreads(fib, fact, bank1, bank2)), sigs);
            BankOutcome(s.out, s.balance, bank1, bank2)
  {
    var cs := InitThreads(fib, fact, bank1, bank2);
    var s := Run(Create(cs), sigs);
    HistoryOf(cs, sigs);
    DoneOutput(cs, sigs);
    MainBank(fib, fact, bank1, bank2, s.calls, s.out, s.balance);
  }

  /** `main`, if any argument passes its guard, whatever signals come: the set-up
      lines come first; the first thread prints the Fibonacci numbers and the
      second the factorials up to their arguments; and the bank starts at 500
      and serves the amounts of threads 2 and 3, one after the other. */
  method MainRun(fib: int, fact: int, bank1: int, bank2: int, signals: nat -> Signal)
    returns (out: seq<Line>, balance: int)
    requires fib > 0 || fact > 0 || bank1 != 0 || bank2 != 0
    ensures BeginsWithSetups(InitThreads(fib, fact, bank1, bank2), out)
    ensures LinesOf(out, 0) == LoopLines(Fibonacci, 0, fib)
    ensures LinesOf(out, 1) == LoopLines(Factorial, 1, fact)
    ensures BankOutcome(out, balance, bank1, bank2)
  {
    MainStarts(fib, fact, bank1, bank2);
    var cs := InitThreads(fib, fact, bank1, bank2);
    var stretches;
    out, balance, stretches := Program(cs, signals);
    ghost var sigs := FirstSignals(signals, stretches);
    RunBegins(cs, sigs);
    MainLoops(fib, fact, bank1, bank2, sigs);
    MainServes(fib, fact, bank1, bank2, sigs);
  }
}
