/** Commands from the Manager's keyboard to its answer, under every schedule of
    the processes. The Manager is the root; its own pipes stand for the command
    read and for the verdict, `false` being "doesn't exist". */
module CommandResults {
  import opened CommandText
  import opened ServiceTree
  import opened SearchReference
  import opened SearchProtocol

  lemma {:induction false} RunForecast(l: Link, msg: string, run: seq<Path>)
    requires Busy(l, msg) && Allowed(l, run)
    ensures var (l', lines) := After(l, run);
            && Busy(l', msg)
            && Forecast(l, msg) == Forecast(l', msg).(log := lines + Forecast(l', msg).log)
            && |run| + Left(l', msg) <= Left(l, msg)
    decreases |run|
  {
    if run == [] {
      assert [] + Forecast(l, msg).log == Forecast(l, msg).log;
    } else {
      if l.up.Some? { AnsweredStill(l, run[0]); }
      StepForecast(l, msg, run[0]);
      StepLeft(l, msg, run[0]);
      var (next, lines) := Step(l, run[0]);
      RunForecast(next, msg, run[1..]);
      var (last, more) := After(next, run[1..]);
      assert lines + (more + Forecast(last, msg).log) == (lines + more) + Forecast(last, msg).log;
    }
  }

  /** A link in service is answered exactly when nobody can move. */
  lemma AnsweredIff(l: Link, msg: string)
    requires Busy(l, msg)
    ensures l.up.Some? <==> forall path :: !Enabled(l, path)
  {
    if l.up.Some? {
      forall path ensures !Enabled(l, path) { AnsweredStill(l, path); }
    } else {
      OneMover(l, msg, Mover(l, msg));
    }
  }

  /** The Manager's tree with a command just read. */
  function Issue(root: Proc, c: Command): Link {
    Link(false, Some(Text(c)), None, root)
  }

  function Addressee(c: Command): string
    requires !c.Exchange?
  {
    if c.Spawn? then c.parent else c.target
  }

  /** The tree a command is to leave behind. */
  function Result(root: Proc, c: Command): Proc {
    var names := Preorder(root);
    if c.Spawn? && c.parent in names then AddAt(root, First(names, c.parent), NewChild(c.child)) else root
  }

  /** What a service is to print of a command it receives; the search half of a
      kill prints the kill. */
  function Echo(c: Command): string
    requires !c.Exchange?
  {
    match c
    case Spawn(parent, child) => "spawn " + parent + " " + child
    case Find(target) => "kill " + target
  }

  /** The lines "X has received ..." a command is to cause, in order. */
  function Announcements(root: Proc, c: Command): (r: seq<Received>)
    requires !c.Exchange?
    ensures var names := Visited(Preorder(root), Addressee(c));
            |r| == |names| && forall k :: 0 <= k < |r| ==> r[k] == Received(names[k], Echo(c))
  {
    var names := Visited(Preorder(root), Addressee(c));
    seq(|names|, k requires 0 <= k < |names| => Received(names[k], Echo(c)))
  }

  lemma IssueForecast(root: Proc, c: Command)
    requires Quiet(root) && WellNamed(c) && !c.Exchange?
    ensures Busy(Issue(root, c), Text(c))
    ensures Forecast(Issue(root, c), Text(c)) ==
            Outcome(Addressee(c) in Preorder(root), Result(root, c), Announcements(root, c))
  {
    CommandRoundTrip(c);
    SearchFinds(root, Text(c));
    assert "spawn"[0] == 's' && "find"[0] == 'f';
    EchoesText(c);
    assert Announcements(root, c) == Log(Visited(Preorder(root), Addressee(c)), Text(c));
  }

  lemma EchoesText(c: Command)
    requires WellNamed(c) && !c.Exchange?
    ensures Announced(Text(c)) == Echo(c)
  {
    CommandRoundTrip(c);
    TextFormat(c);
  }

  /** For every schedule: a spawn or find ends, after at most as many moves as the
      tree has room for; nobody is stuck before the answer is there; the services
      that announce the command are, at any time, the first of the preorder
      prefix up to the addressee; and at the end the answer says whether the
      addressee exists, the whole prefix has been visited, the tree has the new
      child at the first match and is otherwise unchanged, and all are idle. */
  lemma CommandSearches(root: Proc, c: Command, run: seq<Path>)
    requires Quiet(root) && WellNamed(c) && !c.Exchange?
    requires Allowed(Issue(root, c), run)
    ensures |run| <= Size(root)
    ensures var (l, lines) := After(Issue(root, c), run);
            && lines <= Announcements(root, c)
            && (l.up.Some? <==> forall path :: !Enabled(l, path))
            && (l.up.Some? ==>
                  && (l.up.value <==> Addressee(c) in Preorder(root))
                  && lines == Announcements(root, c)
                  && l.proc == Result(root, c)
                  && Quiet(l.proc))
  {
    IssueForecast(root, c);
    RunForecast(Issue(root, c), Text(c), run);
    var (l, lines) := After(Issue(root, c), run);
    AnsweredIff(l, Text(c));
  }

  // ------------------------------------------------------------- what AddAt means

  /** The new service is one more name in the preorder, somewhere after its
      parent; the others keep their order. */
  lemma {:induction false} AddAtPreorder(p: Proc, i: nat, child: string) returns (j: nat)
    requires i < |Preorder(p)|
    ensures i < j <= |Preorder(p)|
    ensures Preorder(AddAt(p, i, NewChild(child))) == Preorder(p)[..j] + [child] + Preorder(p)[j..]
    decreases p
  {
    var names := PreorderKids(p.kids);
    if i == 0 {
      KidsAppend(p.kids, NewChild(child));
      assert Preorder(NewChild(child).proc) == [child];
      j := |Preorder(p)|;
    } else {
      var k := AddAtKidsPreorder(p.kids, i - 1, child);
      j := k + 1;
      assert Preorder(p)[..j] == [p.name] + names[..k];
      assert Preorder(p)[j..] == names[k..];
    }
  }

  lemma {:induction false} KidsAppend(kids: seq<Link>, l: Link)
    ensures PreorderKids(kids + [l]) == PreorderKids(kids) + PreorderLink(l)
  {
    if kids == [] {
      assert [] + [l] == [l];
    } else {
      KidsAppend(kids[1..], l);
      assert (kids + [l])[0] == kids[0] && (kids + [l])[1..] == kids[1..] + [l];
      assert PreorderLink(kids[0]) + (PreorderKids(kids[1..]) + PreorderLink(l)) ==
             PreorderLink(kids[0]) + PreorderKids(kids[1..]) + PreorderLink(l);
    }
  }

  lemma {:induction false} AddAtLinkPreorder(l: Link, i: nat, child: string) returns (j: nat)
    requires i < |PreorderLink(l)|
    ensures i < j <= |PreorderLink(l)|
    ensures PreorderLink(AddAtLink(l, i, NewChild(child))) == PreorderLink(l)[..j] + [child] + PreorderLink(l)[j..]
    decreases l
  {
    j := AddAtPreorder(l.proc, i, child);
  }

  lemma {:induction false} AddAtKidsPreorder(kids: seq<Link>, i: nat, child: string) returns (j: nat)
    requires i < |PreorderKids(kids)|
    ensures i < j <= |PreorderKids(kids)|
    ensures PreorderKids(AddAtKids(kids, i, NewChild(child))) ==
            PreorderKids(kids)[..j] + [child] + PreorderKids(kids)[j..]
    decreases kids
  {
    var a, b := PreorderLink(kids[0]), PreorderKids(kids[1..]);
    if i < |a| {
      j := AddAtLinkPreorder(kids[0], i, child);
      var l := AddAtLink(kids[0], i, NewChild(child));
      assert ([l] + kids[1..])[1..] == kids[1..];
      assert (a + b)[..j] == a[..j] && (a + b)[j..] == a[j..] + b;
      assert (a[..j] + [child] + a[j..]) + b == a[..j] + [child] + (a[j..] + b);
    } else {
      var k := AddAtKidsPreorder(kids[1..], i - |a|, child);
      j := |a| + k;
      var rest := AddAtKids(kids[1..], i - |a|, NewChild(child));
      assert ([kids[0]] + rest)[1..] == rest;
      assert (a + b)[..j] == a + b[..k] && (a + b)[j..] == b[k..];
      assert a + (b[..k] + [child] + b[k..]) == (a + b[..k]) + [child] + b[k..];
    }
  }

  /** Commands in sequence: after a spawn the new name is found, and every other
      name is found exactly if it was before. */
  lemma SpawnThenFind(root: Proc, parent: string, child: string, target: string, run: seq<Path>, run': seq<Path>)
    requires Quiet(root) && IsWord(parent) && IsWord(child) && IsWord(target)
    requires Allowed(Issue(root, Spawn(parent, child)), run)
    requires var l := After(Issue(root, Spawn(parent, child)), run).0;
             && l.up == Some(true)
             && Allowed(Issue(l.proc, Find(target)), run')
             && After(Issue(l.proc, Find(target)), run').0.up.Some?
    ensures var l := After(Issue(root, Spawn(parent, child)), run).0;
            After(Issue(l.proc, Find(target)), run').0.up.value <==> target == child || target in Preorder(root)
  {
    var l := After(Issue(root, Spawn(parent, child)), run).0;
    CommandSearches(root, Spawn(parent, child), run);
    CommandSearches(l.proc, Find(target), run');
    var names := Preorder(root);
    var j := AddAtPreorder(root, First(names, parent), child);
    assert names == names[..j] + names[j..];
  }
}
