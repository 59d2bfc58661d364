/** The bank account as the runs print it: the balance lines form one chain from
    the opening balance to the balance now, whatever is interleaved with them. */
module BankLedger {
  import opened ThreadModel
  import opened LockDiscipline
  import opened LockHistory
  import opened ThreadProgress

  /** The balance lines of an output. */
  function Ledgers(out: seq<Line>): (r: seq<Line>)
    ensures forall k :: 0 <= k < |r| ==> r[k].Ledger?
  {
    if out == [] then []
    else Ledgers(out[..|out| - 1]) + (if out[|out| - 1].Ledger? then [out[|out| - 1]] else [])
  }

  /** The balance lines of serving `ids` one after the other. */
  function Statement(ids: seq<int>, cs: seq<Creation>): seq<Line> {
    if ids == [] then []
    else
      var prior, id := ids[..|ids| - 1], ids[|ids| - 1];
      Statement(prior, cs) + [Ledger(id, BalanceAfter(prior, cs), BalanceAfter(ids, cs))]
  }

  /** Each line takes up the balance the one before it left, settles the amount of
      its own thread, and never goes below zero. */
  ghost predicate Chained(ls: seq<Line>, ids: seq<int>, cs: seq<Creation>) {
    && |ls| <= |ids|
    && forall k :: 0 <= k < |ls| ==>
         && ls[k].Ledger? && ls[k].id == ids[k]
         && ls[k].pre == BalanceIn(ls[..k])
         && ls[k].post == Settle(ls[k].pre, ArgOf(cs, ids[k])) >= 0
  }

  /** The balance after the last of the lines. */
  function BalanceIn(ls: seq<Line>): int {
    if ls != [] && ls[|ls| - 1].Ledger? then ls[|ls| - 1].post else OPENING_BALANCE
  }

  lemma {:induction false} LedgersAppend(a: seq<Line>, b: seq<Line>)
    ensures Ledgers(a + b) == Ledgers(a) + Ledgers(b)
  {
    if b == [] {
      assert a + b == a;
    } else {
      var n := |b| - 1;
      LedgersAppend(a, b[..n]);
      assert (a + b)[..|a| + n] == a + b[..n];
    }
  }

  lemma {:induction false} LedgersOfBank(out: seq<Line>)
    ensures Ledgers(BankLines(out)) == Ledgers(out)
  {
    if out != [] {
      var n := |out| - 1;
      LedgersOfBank(out[..n]);
      LedgersAppend(BankLines(out[..n]), if IsBankLine(out[n]) then [out[n]] else []);
    }
  }

  lemma LedgersOfLine(l: Line)
    ensures Ledgers([l]) == if l.Ledger? then [l] else []
  {
    assert Ledgers([]) == [] && [l][..0] == [];
  }

  lemma LedgersOfOne(id: int, pre: int, post: int)
    ensures Ledgers([Acquired(id)]) == []
    ensures Ledgers([Acquired(id), Ledger(id, pre, post)]) == [Ledger(id, pre, post)]
    ensures Ledgers([Acquired(id), Ledger(id, pre, post), Released(id)]) == [Ledger(id, pre, post)]
  {
    var a, l, r := Acquired(id), Ledger(id, pre, post), Released(id);
    assert [a, l] == [a] + [l] && [a, l, r] == [a, l] + [r];
    LedgersOfLine(a);
    LedgersOfLine(l);
    LedgersOfLine(r);
    LedgersAppend([a], [l]);
    LedgersAppend([a, l], [r]);
  }

  lemma {:induction false} TranscriptLedgers(ids: seq<int>, cs: seq<Creation>)
    ensures Ledgers(Transcript(ids, cs)) == Statement(ids, cs)
  {
    if ids != [] {
      var prior, id := ids[..|ids| - 1], ids[|ids| - 1];
      TranscriptLedgers(prior, cs);
      var pre, post := BalanceAfter(prior, cs), BalanceAfter(ids, cs);
      LedgersOfOne(id, pre, post);
      LedgersAppend(Transcript(prior, cs), [Acquired(id), Ledger(id, pre, post), Released(id)]);
    }
  }

  lemma SessionLedgers(t: Thread, prior: seq<int>, cs: seq<Creation>)
    ensures Ledgers(Transcript(prior, cs) + Session(t, prior, cs)) ==
            Statement(if t.at.AtYield2? then prior + [t.id] else prior, cs)
  {
    LedgersOfOne(t.id, BalanceAfter(prior, cs), BalanceAfter(prior + [t.id], cs));
    LedgersAppend(Transcript(prior, cs), Session(t, prior, cs));
    TranscriptLedgers(prior, cs);
    assert (prior + [t.id])[..|prior|] == prior;
  }

  /** The books, seen through the balance lines only. */
  lemma BooksLedgers(s: State, cs: seq<Creation>) returns (served: seq<int>)
    requires LockInv(s) && Books(s, cs)
    ensures served <= s.grants && |s.grants| - 1 <= |served|
    ensures Ledgers(s.out) == Statement(served, cs) && s.balance == BalanceAfter(served, cs)
  {
    LedgersOfBank(s.out);
    if s.owner == NO_OWNER {
      served := s.grants;
      TranscriptLedgers(served, cs);
    } else {
      var h :| h in s.rq && h.id == s.owner;
      assert HolderOk(s, h, cs);
      var prior := s.grants[..|s.grants| - 1];
      served := if h.at.AtYield2? then s.grants else prior;
      SessionLedgers(h, prior, cs);
    }
  }

  lemma {:induction false} StatementChained(ids: seq<int>, cs: seq<Creation>)
    ensures Chained(Statement(ids, cs), ids, cs) && |Statement(ids, cs)| == |ids|
    ensures BalanceIn(Statement(ids, cs)) == BalanceAfter(ids, cs)
  {
    if ids != [] {
      var n := |ids| - 1;
      StatementChained(ids[..n], cs);
      BalanceAccounts(ids, cs);
      var ls, l := Statement(ids, cs), Statement(ids[..n], cs);
      assert ls[..n] == l;
      forall k | 0 <= k < n
        ensures ls[k].Ledger? && ls[k].id == ids[k] && ls[k].pre == BalanceIn(ls[..k])
        ensures ls[k].post == Settle(ls[k].pre, ArgOf(cs, ids[k])) >= 0
      {
        assert ls[k] == l[k] && ls[..k] == l[..k];
      }
    }
  }

  lemma ChainedLonger(ls: seq<Line>, ids: seq<int>, all: seq<int>, cs: seq<Creation>)
    requires Chained(ls, ids, cs) && ids <= all
    ensures Chained(ls, all, cs)
  {
  }

  /** At any moment of any run the balance lines printed are one chain: the first
      takes up the opening balance, each later one the balance before it, in the
      order of the grants; and the balance is what the last one left, never
      negative. At most the last thread served has not printed its line yet. */
  lemma AccountChain(cs: seq<Creation>, sigs: seq<Signal>)
    requires Startable(cs)
    ensures var s := Run(Create(cs), sigs);
            && Chained(Ledgers(s.out), s.grants, cs)
            && |s.grants| - 1 <= |Ledgers(s.out)|
            && s.balance == BalanceIn(Ledgers(s.out)) >= 0
  {
    HistoryOf(cs, sigs);
    var s := Run(Create(cs), sigs);
    var served := BooksLedgers(s, cs);
    StatementChained(served, cs);
    ChainedLonger(Ledgers(s.out), served, s.grants, cs);
    BalanceAccounts(served, cs);
  }
}
