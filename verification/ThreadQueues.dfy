/** Conservation of threads: whatever the scheduler does to its two queues,
    the ready, the waiting and the freed threads together stay the threads
    that were created, each exactly once. */
module ThreadQueues {
  import opened ThreadModel

  function Ids(q: seq<Thread>): seq<int> {
    seq(|q|, k requires 0 <= k < |q| => q[k].id)
  }

  /** Every id the state mentions, with multiplicity. */
  ghost function IdBag(s: State): multiset<int> {
    multiset(Ids(s.rq)) + multiset(Ids(s.wq)) + multiset(Ids(s.gone))
  }

  ghost predicate Distinct(s: State) {
    forall id :: IdBag(s)[id] <= 1
  }

  lemma IdsAppend(q: seq<Thread>, t: Thread)
    ensures Ids(q + [t]) == Ids(q) + [t.id]
    ensures multiset(Ids(q + [t])) == multiset(Ids(q)) + multiset{t.id}
  {
  }

  lemma InIds(q: seq<Thread>, t: Thread)
    requires t in q
    ensures t.id in Ids(q) && multiset(Ids(q))[t.id] >= 1
  {
    var k :| 0 <= k < |q| && q[k] == t;
    assert Ids(q)[k] == t.id;
  }

  lemma OfIds(q: seq<Thread>, id: int) returns (t: Thread)
    requires id in Ids(q)
    ensures t in q && t.id == id
  {
    var k :| 0 <= k < |Ids(q)| && Ids(q)[k] == id;
    t := q[k];
  }

  lemma WithoutBag<T>(q: seq<T>, k: nat)
    requires k < |q|
    ensures multiset(Without(q, k)) + multiset{q[k]} == multiset(q)
  {
    var last := q[|q| - 1];
    var r := q[k := last];
    assert r == r[..|q| - 1] + [last];
    assert multiset(r) == multiset(Without(q, k)) + multiset{last};
    assert q[k] in q;
    assert multiset(r) == multiset(q) - multiset{q[k]} + multiset{last};
  }

  lemma IdsWithout(q: seq<Thread>, k: nat)
    requires k < |q|
    ensures Ids(Without(q, k)) == Without(Ids(q), k)
  {
  }

  lemma TwiceInBag(s: seq<int>, a: nat, b: nat)
    requires a < b < |s| && s[a] == s[b]
    ensures multiset(s)[s[a]] >= 2
  {
    assert s == s[..b] + s[b..];
    assert s[..b][a] == s[a] && s[a] in s[..b];
    assert s[b..][0] == s[b] && s[b] in s[b..];
  }

  /** In a state without duplicates an id determines its slot, and the three
      groups of threads are disjoint. */
  lemma DistinctSlots(s: State)
    requires Distinct(s)
    ensures forall a, b :: 0 <= a < b < |s.rq| ==> s.rq[a].id != s.rq[b].id
    ensures forall a, b :: 0 <= a < b < |s.wq| ==> s.wq[a].id != s.wq[b].id
    ensures forall t, u :: t in s.rq && u in s.wq ==> t.id != u.id
    ensures forall t, u :: t in s.rq && u in s.gone ==> t.id != u.id
    ensures forall t, u :: t in s.wq && u in s.gone ==> t.id != u.id
  {
    forall a, b | 0 <= a < b < |s.rq| ensures s.rq[a].id != s.rq[b].id {
      assert IdBag(s)[s.rq[a].id] <= 1;
      if s.rq[a].id == s.rq[b].id { TwiceInBag(Ids(s.rq), a, b); }
    }
    forall a, b | 0 <= a < b < |s.wq| ensures s.wq[a].id != s.wq[b].id {
      assert IdBag(s)[s.wq[a].id] <= 1;
      if s.wq[a].id == s.wq[b].id { TwiceInBag(Ids(s.wq), a, b); }
    }
    DistinctGroups(s);
  }

  lemma DistinctGroups(s: State)
    requires Distinct(s)
    ensures forall t, u :: t in s.rq && u in s.wq ==> t.id != u.id
    ensures forall t, u :: t in s.rq && u in s.gone ==> t.id != u.id
    ensures forall t, u :: t in s.wq && u in s.gone ==> t.id != u.id
  {
    forall t, u | t in s.rq && u in s.wq ensures t.id != u.id {
      InIds(s.rq, t); InIds(s.wq, u); assert IdBag(s)[t.id] <= 1;
    }
    forall t, u | t in s.rq && u in s.gone ensures t.id != u.id {
      InIds(s.rq, t); InIds(s.gone, u); assert IdBag(s)[t.id] <= 1;
    }
    forall t, u | t in s.wq && u in s.gone ensures t.id != u.id {
      InIds(s.wq, t); InIds(s.gone, u); assert IdBag(s)[t.id] <= 1;
    }
  }

  /** Swap-with-last removal takes out the thread in the hole and no other. */
  lemma WithoutMembers(q: seq<Thread>, k: nat)
    requires k < |q|
    requires forall a, b :: 0 <= a < b < |q| ==> q[a].id != q[b].id
    ensures forall t :: t in Without(q, k) <==> t in q && t.id != q[k].id
  {
    var w := Without(q, k);
    forall t | t in q && t.id != q[k].id ensures t in w {
      var a :| 0 <= a < |q| && q[a] == t;
      if a == |q| - 1 { assert w[k] == t; } else { assert w[a] == t; }
    }
    forall t | t in w ensures t in q && t.id != q[k].id {
      var a :| 0 <= a < |w| && w[a] == t;
      if a == k { assert t == q[|q| - 1]; } else { assert t == q[a]; }
    }
  }

  // ------------------------------------------------------------ conservation

  lemma SegmentKeepsIds(s: State)
    requires Dispatchable(s)
    ensures Ids(Segment(s).0.rq) == Ids(s.rq) && Segment(s).0.rq[s.cur].id == s.rq[s.cur].id
    ensures Segment(s).0.wq == s.wq && Segment(s).0.gone == s.gone && Segment(s).0.cur == s.cur
    ensures forall k :: 0 <= k < |s.rq| && k != s.cur ==> Segment(s).0.rq[k] == s.rq[k]
  {
  }

  lemma HandOffKeepsIds(s: State)
    ensures IdBag(HandOff(s)) == IdBag(s)
    ensures |HandOff(s).rq| + |HandOff(s).wq| == |s.rq| + |s.wq|
  {
    if s.owner == NO_OWNER && |s.wq| > 0 {
      var h := HandOff(s);
      IdsAppend(s.rq, s.wq[0]);
      assert Ids(s.wq) == [s.wq[0].id] + Ids(h.wq);
    }
  }

  lemma EnterKeepsIds(s: State, rtv: int)
    requires Dispatchable(s) && 1 <= rtv <= 3
    ensures IdBag(Enter(s, rtv)) == IdBag(s)
    ensures |Enter(s, rtv).rq| + |Enter(s, rtv).wq| == |s.rq| + |s.wq| - (if rtv == 3 then 1 else 0)
  {
    var h := HandOff(s);
    HandOffKeepsIds(s);
    if rtv != 1 {
      var t := s.rq[s.cur];
      assert t == h.rq[h.cur];
      IdsWithout(h.rq, h.cur);
      WithoutBag(Ids(h.rq), h.cur);
      assert t.id in multiset(Ids(h.rq)) by { InIds(h.rq, t); }
      IdsAppend(h.wq, t);
      IdsAppend(h.gone, t);
    }
  }

  /** No step loses, duplicates or invents a thread, and only an exit makes the
      two queues together shorter. */
  lemma StepKeepsIds(s: State, sig: Signal)
    requires Dispatchable(s)
    ensures IdBag(Step(s, sig)) == IdBag(s)
    ensures |Step(s, sig).rq| + |Step(s, sig).wq| ==
            |s.rq| + |s.wq| - (if Segment(s).1.Exits? then 1 else 0)
  {
    var (u, stop) := Segment(s);
    SegmentKeepsIds(s);
    if stop.Yields? {
      EnterKeepsIds(u.(out := u.out + [Caught(sig)]), 1);
    } else {
      EnterKeepsIds(u, Rtv(stop));
    }
  }

  lemma CreateIds(cs: seq<Creation>)
    ensures |Create(cs).rq| == |cs| && Create(cs).wq == [] && Create(cs).gone == []
    ensures forall k :: 0 <= k < |cs| ==> Create(cs).rq[k] == Fresh(cs[k])
    ensures Create(cs).owner == NO_OWNER && Create(cs).balance == OPENING_BALANCE && Create(cs).cur == 0
    ensures Create(cs).calls == [] && Create(cs).grants == []
  {
  }

  lemma DistinctSeqBag(s: seq<int>)
    requires forall a, b :: 0 <= a < b < |s| ==> s[a] != s[b]
    ensures forall x :: multiset(s)[x] <= 1
  {
    if s != [] {
      var n := |s| - 1;
      assert s == s[..n] + [s[n]];
      DistinctSeqBag(s[..n]);
      assert s[n] !in s[..n];
    }
  }

  lemma CreateDistinct(cs: seq<Creation>)
    requires Startable(cs)
    ensures Distinct(Create(cs))
    ensures Ids(Create(cs).rq) == seq(|cs|, k requires 0 <= k < |cs| => cs[k].id)
  {
    CreateIds(cs);
    DistinctSeqBag(Ids(Create(cs).rq));
  }
}
