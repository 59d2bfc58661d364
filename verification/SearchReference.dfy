/** What a command addressed to a service means: visit the live services in
    preorder up to the one it names, and change the tree there or nowhere. The
    recursive search of `ServiceTree` does that. */
module SearchReference {
  import opened CommandText
  import opened ServiceTree

  // ------------------------------------------------------------------- the reference

  /** The names of the live services, parents before children, in creation order. */
  function Preorder(p: Proc): seq<string>
    decreases p
  {
    [p.name] + PreorderKids(p.kids)
  }

  function PreorderLink(l: Link): seq<string>
    decreases l
  {
    if l.killed then [] else Preorder(l.proc)
  }

  function PreorderKids(kids: seq<Link>): seq<string>
    decreases kids
  {
    if kids == [] then [] else PreorderLink(kids[0]) + PreorderKids(kids[1..])
  }

  /** The tree with `child` added after the last child of the `i`-th service in
      preorder, and nothing else changed. */
  function AddAt(p: Proc, i: nat, child: Link): Proc
    requires i < |Preorder(p)|
    decreases p
  {
    if i == 0 then p.(kids := p.kids + [child]) else p.(kids := AddAtKids(p.kids, i - 1, child))
  }

  function AddAtLink(l: Link, i: nat, child: Link): Link
    requires i < |PreorderLink(l)|
    decreases l
  {
    l.(proc := AddAt(l.proc, i, child))
  }

  function AddAtKids(kids: seq<Link>, i: nat, child: Link): seq<Link>
    requires i < |PreorderKids(kids)|
    decreases kids
  {
    var n := |PreorderLink(kids[0])|;
    if i < n then [AddAtLink(kids[0], i, child)] + kids[1..]
    else [kids[0]] + AddAtKids(kids[1..], i - n, child)
  }

  /** The place of the first `target`, or the length if there is none. */
  function First(names: seq<string>, target: string): (i: nat)
    ensures i <= |names|
    ensures forall j :: 0 <= j < i ==> names[j] != target
    ensures i < |names| ==> names[i] == target
  {
    if names == [] || names[0] == target then 0 else 1 + First(names[1..], target)
  }

  lemma FirstAppend(a: seq<string>, b: seq<string>, target: string)
    ensures First(a + b, target) == if First(a, target) < |a| then First(a, target) else |a| + First(b, target)
  {
    var i, fa, fb := First(a + b, target), First(a, target), First(b, target);
    if fa < |a| {
      assert (a + b)[fa] == target;
    } else {
      assert forall j :: 0 <= j < |a| ==> (a + b)[j] == a[j];
      assert forall j :: |a| <= j < |a| + fb ==> (a + b)[j] == b[j - |a|];
      assert fb < |b| ==> (a + b)[|a| + fb] == target;
    }
  }

  function Log(names: seq<string>, msg: string): (r: seq<Received>)
    ensures |r| == |names| && forall k :: 0 <= k < |r| ==> r[k] == Received(names[k], Announced(msg))
  {
    seq(|names|, k requires 0 <= k < |names| => Received(names[k], Announced(msg)))
  }

  /** Those visited: everyone up to the first `target`, or everyone. */
  function Visited(names: seq<string>, target: string): seq<string> {
    var i := First(names, target);
    if i < |names| then names[..i + 1] else names
  }

  ghost predicate Finds<T>(r: Outcome<T>, names: seq<string>, msg: string) {
    && (r.found <==> Target(msg) in names)
    && r.log == Log(Visited(names, Target(msg)), msg)
  }

  lemma VisitedAppend(a: seq<string>, b: seq<string>, target: string)
    ensures target in a ==> Visited(a + b, target) == Visited(a, target)
    ensures target !in a ==> Visited(a + b, target) == a + Visited(b, target) && Visited(a, target) == a
  {
    FirstAppend(a, b, target);
    if target in a {
      assert First(a, target) < |a|;
    } else {
      var i := First(b, target);
      if i < |b| { assert (a + b)[..|a| + i + 1] == a + b[..i + 1]; }
    }
  }

  lemma LogAppend(a: seq<string>, b: seq<string>, msg: string)
    ensures Log(a + b, msg) == Log(a, msg) + Log(b, msg)
  {
  }

  lemma FindsAppend<T, U>(ra: Outcome<T>, rb: Outcome<U>, a: seq<string>, b: seq<string>, msg: string)
    requires Finds(ra, a, msg)
    requires !ra.found ==> Finds(rb, b, msg)
    ensures Finds(Outcome(ra.found || rb.found, 0, if ra.found then ra.log else ra.log + rb.log), a + b, msg)
  {
    VisitedAppend(a, b, Target(msg));
    LogAppend(a, Visited(b, Target(msg)), msg);
  }

  // ------------------------------------------------- the search meets the reference

  function Changed(p: Proc, msg: string): Proc {
    var i := First(Preorder(p), Target(msg));
    if IsSpawn(msg) && i < |Preorder(p)| then AddAt(p, i, NewChild(Field(msg, 2))) else p
  }

  function ChangedLink(l: Link, msg: string): Link {
    var i := First(PreorderLink(l), Target(msg));
    if IsSpawn(msg) && i < |PreorderLink(l)| then AddAtLink(l, i, NewChild(Field(msg, 2))) else l
  }

  function ChangedKids(kids: seq<Link>, msg: string): seq<Link> {
    var i := First(PreorderKids(kids), Target(msg));
    if IsSpawn(msg) && i < |PreorderKids(kids)| then AddAtKids(kids, i, NewChild(Field(msg, 2))) else kids
  }

  lemma {:induction false} SearchFinds(p: Proc, msg: string)
    ensures Finds(Search(p, msg), Preorder(p), msg) && Search(p, msg).tree == Changed(p, msg)
    decreases p
  {
    var names, line := PreorderKids(p.kids), Received(p.name, Announced(msg));
    FirstAppend([p.name], names, Target(msg));
    assert Log([p.name], msg) == [line];
    if p.name == Target(msg) {
      assert Visited([p.name], Target(msg)) == [p.name];
      FindsAppend(Outcome(true, 0, [line]), Outcome(false, 0, []), [p.name], names, msg);
    } else {
      SearchKidsFinds(p.kids, msg);
      FindsAppend(Outcome(false, 0, [line]), SearchKids(p.kids, msg), [p.name], names, msg);
    }
  }

  lemma {:induction false} SearchLinkFinds(l: Link, msg: string)
    ensures Finds(SearchLink(l, msg), PreorderLink(l), msg) && SearchLink(l, msg).tree == ChangedLink(l, msg)
    decreases l
  {
    if !l.killed { SearchFinds(l.proc, msg); }
  }

  lemma {:induction false} SearchKidsFinds(kids: seq<Link>, msg: string)
    ensures Finds(SearchKids(kids, msg), PreorderKids(kids), msg) && SearchKids(kids, msg).tree == ChangedKids(kids, msg)
    decreases kids
  {
    if kids != [] {
      SearchLinkFinds(kids[0], msg);
      SearchKidsFinds(kids[1..], msg);
      var r, rest := SearchLink(kids[0], msg), SearchKids(kids[1..], msg);
      FindsAppend(r, rest, PreorderLink(kids[0]), PreorderKids(kids[1..]), msg);
      FirstAppend(PreorderLink(kids[0]), PreorderKids(kids[1..]), Target(msg));
      assert kids == [kids[0]] + kids[1..];
    }
  }
}
