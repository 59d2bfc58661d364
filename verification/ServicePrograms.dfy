/** A service's own list of children, as HW2 keeps it: nodes linked from a root
    node that stands for no child, walked and extended in place. */
module ServicePrograms {
  import opened ServiceTree

  class Node {
    const name: string
    var haveKilled: bool
    var next: Node?

    constructor (name: string)
      ensures this.name == name && !haveKilled && next == null
    {
      this.name := name;
      haveKilled, next := false, null;
    }
  }

  /** The first live child that answers yes, or the number of children. */
  function FirstYes(killed: seq<bool>, answer: nat -> bool, from: nat): (k: nat)
    requires from <= |killed|
    ensures from <= k <= |killed|
    ensures k < |killed| ==> !killed[k] && answer(k)
    ensures forall j: nat :: from <= j < k ==> killed[j] || !answer(j)
    decreases |killed| - from
  {
    if from == |killed| || (!killed[from] && answer(from)) then from else FirstYes(killed, answer, from + 1)
  }

  /** The live ones of the first `n` children, in order. */
  function Live(killed: seq<bool>, n: nat): seq<nat>
    requires n <= |killed|
  {
    if n == 0 then [] else Live(killed, n - 1) + (if killed[n - 1] then [] else [n - 1])
  }

  lemma {:induction false} LiveIs(killed: seq<bool>, n: nat)
    requires n <= |killed|
    ensures forall j: nat :: j in Live(killed, n) <==> j < n && !killed[j]
    ensures forall a, b :: 0 <= a < b < |Live(killed, n)| ==> Live(killed, n)[a] < Live(killed, n)[b]
  {
    if n > 0 {
      var prior := Live(killed, n - 1);
      LiveIs(killed, n - 1);
      assert forall a :: 0 <= a < |prior| ==> prior[a] in prior;
      assert Live(killed, n) == prior + (if killed[n - 1] then [] else [n - 1]);
    }
  }

  class Children {
    const root: Node
    ghost var nodes: seq<Node>

    /** `root` followed by `nodes` is the whole chain, without a repetition. */
    ghost predicate Valid()
      reads this, root, nodes
    {
      && root !in nodes
      && root.next == (if nodes == [] then null else nodes[0])
      && (forall k {:trigger nodes[k].next} :: 0 <= k < |nodes| ==>
            nodes[k].next == if k + 1 < |nodes| then nodes[k + 1] else null)
      && (forall j, k :: 0 <= j < k < |nodes| ==> nodes[j] != nodes[k])
    }

    ghost function Names(): (r: seq<string>)
      reads this
    {
      seq(|nodes|, k requires 0 <= k < |nodes| reads this => nodes[k].name)
    }

    ghost function Killed(): (r: seq<bool>)
      reads this, nodes
      ensures |r| == |nodes| && forall k :: 0 <= k < |r| ==> r[k] == nodes[k].haveKilled
    {
      seq(|nodes|, k requires 0 <= k < |nodes| reads this, nodes => nodes[k].haveKilled)
    }

    constructor (name: string)
      ensures Valid() && Names() == [] && fresh(root)
    {
      root := new Node(name);
      nodes := [];
    }

    /** `create_service`: the new child becomes the last. */
    method CreateService(childName: string)
      requires Valid()
      modifies this, root, nodes
      ensures Valid()
      ensures Names() == old(Names()) + [childName] && Killed() == old(Killed()) + [false]
    {
      var newChild := new Node(childName);
      var target := root;
      ghost var k := 0;
      while target.next != null
        invariant 0 <= k <= |nodes| && target == if k == 0 then root else nodes[k - 1]
        decreases |nodes| - k
      {
        assert k > 0 ==> nodes[k - 1].next == target.next;
        target := target.next;
        k := k + 1;
      }
      assert k == |nodes| by {
        if k > 0 { assert nodes[k - 1].next == null; }
      }
      target.next := newChild;
      nodes := nodes + [newChild];
      assert Names() == old(Names()) + [childName];
      assert Killed() == old(Killed()) + [false];
    }

    /** The loop that passes a message on: skip the killed children, ask the
        others one by one, and stop at the first yes. */
    method Forward(answer: nat -> bool) returns (asked: seq<nat>, found: bool, k: nat)
      requires Valid()
      ensures k == FirstYes(Killed(), answer, 0) && (found <==> k < |Killed()|)
      ensures asked == Live(Killed(), if found then k + 1 else k)
      ensures forall j: nat :: j in asked <==> j < |Killed()| && j <= k && !Killed()[j]
      ensures forall a, b :: 0 <= a < b < |asked| ==> asked[a] < asked[b]
    {
      asked, found, k := [], false, 0;
      ghost var killed := Killed();
      var tmp := root.next;
      while tmp != null && !found
        invariant 0 <= k <= |nodes| && tmp == if k < |nodes| then nodes[k] else null
        invariant FirstYes(killed, answer, k) == FirstYes(killed, answer, 0)
        invariant found ==> k < |nodes| && k == FirstYes(killed, answer, 0)
        invariant asked == Live(killed, if found then k + 1 else k)
        decreases |nodes| - k, !found
      {
        assert nodes[k].next == tmp.next;
        if tmp.haveKilled {
          tmp := tmp.next;
          k := k + 1;
        } else {
          asked := asked + [k];
          if answer(k) {
            found := true;
          } else {
            tmp := tmp.next;
            k := k + 1;
          }
        }
      }
      LiveIs(killed, if found then k + 1 else k);
    }
  }

  /** When each child answers as its own search would, that loop is the recursive
      search over the children: same verdict, same child changed, no other. */
  lemma {:induction false} ForwardSearches(kids: seq<Link>, killed: seq<bool>, msg: string, answer: nat -> bool, from: nat)
    requires from <= |kids| == |killed|
    requires forall j: nat :: j < |kids| ==> (SearchLink(kids[j], msg).found <==> !killed[j] && answer(j))
    ensures var k, r := FirstYes(killed, answer, from), SearchKids(kids[from..], msg);
            && (r.found <==> k < |kids|)
            && kids[..from] + r.tree ==
               if k < |kids| then kids[k := SearchLink(kids[k], msg).tree] else kids
    decreases |kids| - from
  {
    if from < |kids| {
      ForwardSearches(kids, killed, msg, answer, from + 1);
      assert kids[from..][1..] == kids[from + 1..] && kids[from..][0] == kids[from];
      var r, rest := SearchLink(kids[from], msg), SearchKids(kids[from + 1..], msg);
      if !r.found { SearchLinkKeeps(kids[from], msg); }
      Splice(kids, from, r.tree, rest.tree);
    }
  }

  lemma Splice<T>(s: seq<T>, k: nat, x: T, rest: seq<T>)
    requires k < |s|
    ensures s[..k] + ([x] + s[k + 1..]) == s[k := x]
    ensures x == s[k] ==> s[..k] + ([x] + rest) == s[..k + 1] + rest
  {
  }

  /** A search that fails changes nothing. */
  lemma {:induction false} SearchLinkKeeps(l: Link, msg: string)
    requires !SearchLink(l, msg).found
    ensures SearchLink(l, msg).tree == l
    decreases l
  {
    if !l.killed { SearchKidsKeep(l.proc.kids, msg); }
  }

  lemma {:induction false} SearchKidsKeep(kids: seq<Link>, msg: string)
    requires !SearchKids(kids, msg).found
    ensures SearchKids(kids, msg).tree == kids
    decreases kids
  {
    if kids != [] {
      SearchLinkKeeps(kids[0], msg);
      SearchKidsKeep(kids[1..], msg);
      assert kids == [kids[0]] + kids[1..];
    }
  }
}
