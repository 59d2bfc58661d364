/** Any number of commands, one after the other, each served under its own
    schedule: together the processes behave as a set of names. */
module CommandSequences {
  import opened CommandText
  import opened ServiceTree
  import opened SearchReference
  import opened CommandResults

  /** The tree of the reference after the commands. */
  function TreeAfter(root: Proc, cs: seq<Command>): Proc {
    if cs == [] then root else Result(TreeAfter(root, cs[..|cs| - 1]), cs[|cs| - 1])
  }

  /** The names of the services after the commands: a spawn adds its child if its
      parent is one of them. */
  function NamesAfter(names: set<string>, cs: seq<Command>): set<string> {
    if cs == [] then names
    else
      var prior, c := NamesAfter(names, cs[..|cs| - 1]), cs[|cs| - 1];
      if c.Spawn? && c.parent in prior then prior + {c.child} else prior
  }

  function Names(root: Proc): set<string> {
    set name <- Preorder(root)
  }

  /** The tree of processes after each command has been served by its run. */
  function Reached(root: Proc, cs: seq<Command>, runs: seq<seq<Path>>): Proc
    requires |runs| == |cs|
  {
    if cs == [] then root
    else
      var n := |cs| - 1;
      var start := Issue(Reached(root, cs[..n], runs[..n]), cs[n]);
      if Allowed(start, runs[n]) then After(start, runs[n]).0.proc else start.proc
  }

  /** Command `i` as it is issued to the tree the earlier ones have left. */
  function Issued(root: Proc, cs: seq<Command>, runs: seq<seq<Path>>, i: nat): Link
    requires |runs| == |cs| && i < |cs|
  {
    Issue(Reached(root, cs[..i], runs[..i]), cs[i])
  }

  /** The run of command `i` is a run of the processes, up to the answer. */
  ghost predicate Answered(root: Proc, cs: seq<Command>, runs: seq<seq<Path>>, i: nat)
    requires |runs| == |cs| && i < |cs|
  {
    Allowed(Issued(root, cs, runs, i), runs[i]) && After(Issued(root, cs, runs, i), runs[i]).0.up.Some?
  }

  function Verdict(root: Proc, cs: seq<Command>, runs: seq<seq<Path>>, i: nat): bool
    requires |runs| == |cs| && i < |cs| && Answered(root, cs, runs, i)
  {
    After(Issued(root, cs, runs, i), runs[i]).0.up.value
  }

  lemma NamesResult(root: Proc, c: Command)
    requires !c.Exchange?
    ensures Names(Result(root, c)) == if c.Spawn? && c.parent in Names(root) then Names(root) + {c.child} else Names(root)
  {
    if c.Spawn? && c.parent in Preorder(root) {
      var names := Preorder(root);
      var j := AddAtPreorder(root, First(names, c.parent), c.child);
      assert names == names[..j] + names[j..];
    }
  }

  lemma {:induction false} NamesOfTree(root: Proc, cs: seq<Command>)
    requires forall c :: c in cs ==> !c.Exchange?
    ensures Names(TreeAfter(root, cs)) == NamesAfter(Names(root), cs)
  {
    if cs != [] {
      NamesOfTree(root, cs[..|cs| - 1]);
      NamesResult(TreeAfter(root, cs[..|cs| - 1]), cs[|cs| - 1]);
    }
  }

  lemma {:induction false} ReachedTree(root: Proc, cs: seq<Command>, runs: seq<seq<Path>>, k: nat)
    requires Quiet(root) && |runs| == |cs| && k <= |cs|
    requires forall i :: 0 <= i < |cs| ==> WellNamed(cs[i]) && !cs[i].Exchange? && Answered(root, cs, runs, i)
    ensures Reached(root, cs[..k], runs[..k]) == TreeAfter(root, cs[..k])
    ensures Quiet(TreeAfter(root, cs[..k]))
    decreases k
  {
    if k > 0 {
      ReachedTree(root, cs, runs, k - 1);
      assert cs[..k][..k - 1] == cs[..k - 1] && runs[..k][..k - 1] == runs[..k - 1];
      assert Answered(root, cs, runs, k - 1);
      CommandSearches(TreeAfter(root, cs[..k - 1]), cs[k - 1], runs[k - 1]);
    }
  }

  /** Any spawns and finds, each run to its answer under any schedule: the answer
      to each is whether its addressee is among the names then; at the end the
      tree is the one of the reference, its names are those of the set, and all
      processes are idle. */
  lemma Conversation(root: Proc, cs: seq<Command>, runs: seq<seq<Path>>)
    requires Quiet(root) && |runs| == |cs|
    requires forall i :: 0 <= i < |cs| ==> WellNamed(cs[i]) && !cs[i].Exchange? && Answered(root, cs, runs, i)
    ensures Reached(root, cs, runs) == TreeAfter(root, cs)
    ensures Quiet(TreeAfter(root, cs)) && Names(TreeAfter(root, cs)) == NamesAfter(Names(root), cs)
    ensures forall i :: 0 <= i < |cs| ==>
              && Answered(root, cs, runs, i)
              && (Verdict(root, cs, runs, i) <==> Addressee(cs[i]) in NamesAfter(Names(root), cs[..i]))
  {
    assert cs[..|cs|] == cs && runs[..|cs|] == runs;
    ReachedTree(root, cs, runs, |cs|);
    NamesOfTree(root, cs);
    forall i | 0 <= i < |cs|
      ensures Answered(root, cs, runs, i)
      ensures Verdict(root, cs, runs, i) <==> Addressee(cs[i]) in NamesAfter(Names(root), cs[..i])
    {
      assert WellNamed(cs[i]) && Answered(root, cs, runs, i);
      ReachedTree(root, cs, runs, i);
      NamesOfTree(root, cs[..i]);
      CommandSearches(TreeAfter(root, cs[..i]), cs[i], runs[i]);
    }
  }
}
