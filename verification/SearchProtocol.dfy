/** The message protocol of `ServiceTree` refines its recursive search: at any
    moment exactly one process can move, and no move changes how the search
    will end. */
module SearchProtocol {
  import opened ServiceTree

  // -------------------------------------------------------------- one message at large

  /** Exactly one process of the subtree has something to do with `msg`: its
      answer is ready, or it has the message to read, or it waits for a child of
      which the same holds. Everybody else is calm. */
  ghost predicate Busy(l: Link, msg: string)
    decreases l
  {
    if l.up.Some? then l.down.None? && Quiet(l.proc)
    else if l.down.Some? then l.down.value == msg && Quiet(l.proc)
    else BusyProc(l.proc, msg)
  }

  ghost predicate BusyProc(p: Proc, msg: string)
    decreases p
  {
    && p.mode.Waiting? && p.mode.msg == msg && p.mode.kid < |p.kids|
    && !p.kids[p.mode.kid].killed
    && Busy(p.kids[p.mode.kid], msg)
    && (forall j :: 0 <= j < |p.kids| && j != p.mode.kid ==> Calm(p.kids[j]))
  }

  /** How the search will end from here: the answer, the tree, and the lines
      still to be printed. */
  ghost function Forecast(l: Link, msg: string): Outcome<Proc>
    requires Busy(l, msg)
    decreases l
  {
    if l.up.Some? then Outcome(l.up.value, l.proc, [])
    else if l.down.Some? then Search(l.proc, msg)
    else ForecastProc(l.proc, msg)
  }

  ghost function ForecastProc(p: Proc, msg: string): Outcome<Proc>
    requires BusyProc(p, msg)
    decreases p
  {
    var k := p.mode.kid;
    var r := Forecast(p.kids[k], msg);
    var kid := p.kids[k].(down := None, up := None, proc := r.tree);
    if r.found then Outcome(true, Proc(p.name, Idle, p.kids[k := kid]), r.log)
    else
      var rest := SearchKids(p.kids[k + 1..], msg);
      Outcome(rest.found, Proc(p.name, Idle, p.kids[..k] + [kid] + rest.tree), r.log + rest.log)
  }

  /** A killed child does not take part in the search. */
  lemma SearchSkips(kids: seq<Link>, from: nat, msg: string)
    requires from < |kids| && kids[from].killed
    ensures var r, rest := SearchKids(kids[from..], msg), SearchKids(kids[from + 1..], msg);
            r.found == rest.found && r.log == rest.log && kids[..from] + r.tree == kids[..from + 1] + rest.tree
  {
  }

  lemma NobodyLeft(l: Link, msg: string)
    requires Calm(l)
    ensures var l' := PassOn(l, msg, |l.proc.kids|);
            Busy(l', msg) && Forecast(l', msg) == Outcome(false, l.proc, [])
  {
  }

  /** Passing the message on from child `from` is searching the children from
      there. */
  lemma {:induction false} PassOnForecast(l: Link, msg: string, from: nat)
    requires Calm(l) && from <= |l.proc.kids|
    ensures var p, r := l.proc, SearchKids(l.proc.kids[from..], msg);
            && Busy(PassOn(l, msg, from), msg)
            && Forecast(PassOn(l, msg, from), msg) ==
               Outcome(r.found, p.(kids := p.kids[..from] + r.tree), r.log)
    decreases |l.proc.kids| - from
  {
    var kids := l.proc.kids;
    if from == |kids| {
      NobodyLeft(l, msg);
      assert kids[from..] == [] && kids[..from] + [] == kids;
    } else if kids[from].killed {
      PassOnForecast(l, msg, from + 1);
      SearchSkips(kids, from, msg);
      assert PassOn(l, msg, from) == PassOn(l, msg, from + 1);
    } else {
      AskForecast(l, msg, from);
    }
  }

  lemma AskForecast(l: Link, msg: string, k: nat)
    requires Calm(l) && k < |l.proc.kids| && !l.proc.kids[k].killed
    ensures var p, r := l.proc, SearchKids(l.proc.kids[k..], msg);
            && Busy(PassOn(l, msg, k), msg)
            && Forecast(PassOn(l, msg, k), msg) == Outcome(r.found, p.(kids := p.kids[..k] + r.tree), r.log)
  {
    var kids := l.proc.kids;
    assert Calm(kids[k]);
    var asked := kids[k].(down := Some(msg));
    var l' := PassOn(l, msg, k);
    assert l' == l.(proc := l.proc.(mode := Waiting(k, msg), kids := kids[k := asked]));
    assert Busy(asked, msg) && Forecast(asked, msg) == Search(kids[k].proc, msg);
    assert BusyProc(l'.proc, msg);
    assert l'.proc.kids[k + 1..] == kids[k + 1..] == kids[k..][1..];
    var r := SearchLink(kids[k], msg);
    assert r.tree == asked.(down := None, up := None, proc := Search(kids[k].proc, msg).tree);
    if r.found {
      assert l'.proc.kids[k := r.tree] == kids[..k] + ([r.tree] + kids[k..][1..]);
    } else {
      var rest := SearchKids(kids[k + 1..], msg);
      assert l'.proc.kids[..k] == kids[..k];
      assert kids[..k] + [r.tree] + rest.tree == kids[..k] + ([r.tree] + rest.tree);
    }
  }

  // ------------------------------------------------------------- one move at a time

  lemma {:induction false} CalmStill(l: Link, path: Path)
    requires Calm(l)
    ensures !Enabled(l, path)
    decreases |path|
  {
    if path != [] && path[0] < |l.proc.kids| { CalmStill(l.proc.kids[path[0]], path[1..]); }
  }

  lemma AnsweredStill(l: Link, path: Path)
    requires l.down.None? && Quiet(l.proc)
    ensures !Enabled(l, path)
  {
  }

  /** The process whose move it is. */
  ghost function Mover(l: Link, msg: string): Path
    requires Busy(l, msg) && l.up.None?
    decreases l
  {
    if l.down.Some? then [] else MoverProc(l.proc, msg)
  }

  ghost function MoverProc(p: Proc, msg: string): Path
    requires BusyProc(p, msg)
    decreases p
  {
    var kid := p.kids[p.mode.kid];
    if kid.up.Some? then [] else [p.mode.kid] + Mover(kid, msg)
  }

  /** There is always exactly one process that can move. */
  lemma {:induction false} OneMover(l: Link, msg: string, path: Path)
    requires Busy(l, msg) && l.up.None?
    ensures Enabled(l, path) <==> path == Mover(l, msg)
    decreases |path|
  {
    if l.down.Some? {
      if path != [] && path[0] < |l.proc.kids| { CalmStill(l.proc.kids[path[0]], path[1..]); }
    } else {
      assert BusyProc(l.proc, msg);
      var k := l.proc.mode.kid;
      var kid := l.proc.kids[k];
      assert Busy(kid, msg);
      if path != [] && path[0] < |l.proc.kids| {
        if path[0] != k { CalmStill(l.proc.kids[path[0]], path[1..]); }
        else if kid.up.Some? { AnsweredStill(kid, path[1..]); }
        else {
          OneMover(kid, msg, path[1..]);
          assert path == [k] + path[1..];
          assert ([k] + Mover(kid, msg))[1..] == Mover(kid, msg);
        }
      }
    }
  }

  lemma DeliverForecast(l: Link, msg: string)
    requires Busy(l, msg) && l.down.Some? && l.up.None?
    ensures var (l', lines) := LocalStep(l);
            && Busy(l', msg) && l'.killed == l.killed
            && Forecast(l, msg) == Forecast(l', msg).(log := lines + Forecast(l', msg).log)
  {
    var p := l.proc;
    var l0 := l.(down := None);
    if p.name == Target(msg) {
      assert Quiet(Serve(p, msg));
    } else {
      PassOnForecast(l0, msg, 0);
      assert p.kids[0..] == p.kids;
      assert p.kids[..0] + SearchKids(p.kids, msg).tree == SearchKids(p.kids, msg).tree;
    }
  }

  lemma CollectForecast(l: Link, msg: string)
    requires BusyProc(l.proc, msg) && l.down.None? && l.up.None? && l.proc.kids[l.proc.mode.kid].up.Some?
    ensures var (l', lines) := LocalStep(l);
            && Busy(l', msg) && l'.killed == l.killed
            && Forecast(l, msg) == Forecast(l', msg).(log := lines + Forecast(l', msg).log)
  {
    var p := l.proc;
    var k := p.mode.kid;
    var kid := p.kids[k];
    assert Busy(kid, msg);
    var kid' := kid.(up := None);
    var l0 := l.(proc := Proc(p.name, Idle, p.kids[k := kid']));
    assert kid' == kid.(down := None, up := None, proc := Forecast(kid, msg).tree);
    assert Calm(kid');
    assert Quiet(l0.proc);
    if !kid.up.value {
      PassOnForecast(l0, msg, k + 1);
      assert l0.proc.kids[k + 1..] == p.kids[k + 1..];
      assert l0.proc.kids[..k + 1] == p.kids[..k] + [kid'];
    }
  }

  /** Whoever moves, the forecast stands: what is printed now is what it said
      would be printed first. */
  lemma {:induction false} StepForecast(l: Link, msg: string, path: Path)
    requires Busy(l, msg) && l.up.None? && Enabled(l, path)
    ensures var (l', lines) := Step(l, path);
            && Busy(l', msg) && l'.killed == l.killed
            && Forecast(l, msg) == Forecast(l', msg).(log := lines + Forecast(l', msg).log)
    decreases |path|
  {
    OneMover(l, msg, path);
    if l.down.Some? {
      DeliverForecast(l, msg);
    } else {
      assert BusyProc(l.proc, msg);
      if path == [] {
        CollectForecast(l, msg);
      } else {
        StepForecast(l.proc.kids[path[0]], msg, path[1..]);
        InnerForecast(l, msg, path);
      }
    }
  }

  lemma InnerForecast(l: Link, msg: string, path: Path)
    requires BusyProc(l.proc, msg) && l.down.None? && l.up.None?
    requires Enabled(l, path) && path != [] && path[0] == l.proc.mode.kid
    requires var kid := l.proc.kids[path[0]];
             var (kid', lines) := Step(kid, path[1..]);
             && Busy(kid', msg) && kid'.killed == kid.killed
             && Forecast(kid, msg) == Forecast(kid', msg).(log := lines + Forecast(kid', msg).log)
    ensures var (l', lines) := Step(l, path);
            && Busy(l', msg) && l'.killed == l.killed
            && Forecast(l, msg) == Forecast(l', msg).(log := lines + Forecast(l', msg).log)
  {
    var k := path[0];
    var p := l.proc;
    var kid := p.kids[k];
    var (kid', lines) := Step(kid, path[1..]);
    var p' := p.(kids := p.kids[k := kid']);
    assert BusyProc(p', msg);
    assert p'.kids[k + 1..] == p.kids[k + 1..] && p'.kids[..k] == p.kids[..k];
    var r, r' := Forecast(kid, msg), Forecast(kid', msg);
    var done := kid.(down := None, up := None, proc := r.tree);
    assert done == kid'.(down := None, up := None, proc := r'.tree);
    assert p'.kids[k := done] == p.kids[k := done];
    var rest := SearchKids(p.kids[k + 1..], msg);
    assert (lines + r'.log) + rest.log == lines + (r'.log + rest.log);
  }

  // ---------------------------------------------------------------- counting moves

  function Size(p: Proc): nat
    decreases p
  {
    1 + SizeKids(p.kids)
  }

  function SizeLink(l: Link): nat
    decreases l
  {
    Size(l.proc)
  }

  function SizeKids(kids: seq<Link>): nat
    decreases kids
  {
    if kids == [] then 0 else SizeLink(kids[0]) + 1 + SizeKids(kids[1..])
  }

  /** The moves left at most. */
  ghost function Left(l: Link, msg: string): nat
    requires Busy(l, msg)
    decreases l
  {
    if l.up.Some? then 0 else if l.down.Some? then Size(l.proc) else LeftProc(l.proc, msg)
  }

  ghost function LeftProc(p: Proc, msg: string): nat
    requires BusyProc(p, msg)
    decreases p
  {
    Left(p.kids[p.mode.kid], msg) + 1 + SizeKids(p.kids[p.mode.kid + 1..])
  }

  lemma {:induction false} PassOnLeft(l: Link, msg: string, from: nat)
    requires Calm(l) && from <= |l.proc.kids|
    ensures Busy(PassOn(l, msg, from), msg)
    ensures Left(PassOn(l, msg, from), msg) <= SizeKids(l.proc.kids[from..])
    decreases |l.proc.kids| - from
  {
    PassOnForecast(l, msg, from);
    var kids := l.proc.kids;
    if from < |kids| {
      assert kids[from..][1..] == kids[from + 1..] && kids[from..][0] == kids[from];
      if kids[from].killed {
        PassOnLeft(l, msg, from + 1);
      } else {
        var l' := PassOn(l, msg, from);
        assert l'.proc.kids[from + 1..] == kids[from + 1..];
        assert BusyProc(l'.proc, msg);
        assert Left(l'.proc.kids[from], msg) == SizeLink(kids[from]);
      }
    }
  }

  lemma {:induction false} StepLeft(l: Link, msg: string, path: Path)
    requires Busy(l, msg) && l.up.None? && Enabled(l, path)
    ensures Busy(Step(l, path).0, msg)
    ensures Left(Step(l, path).0, msg) < Left(l, msg)
    decreases |path|
  {
    OneMover(l, msg, path);
    StepForecast(l, msg, path);
    if l.down.Some? {
      if l.proc.name != Target(msg) {
        PassOnLeft(l.(down := None), msg, 0);
        assert l.proc.kids[0..] == l.proc.kids;
      }
    } else if path == [] {
      CollectLeft(l, msg);
    } else {
      InnerLeft(l, msg, path);
    }
  }

  lemma CollectLeft(l: Link, msg: string)
    requires BusyProc(l.proc, msg) && l.down.None? && l.up.None? && l.proc.kids[l.proc.mode.kid].up.Some?
    requires Busy(LocalStep(l).0, msg)
    ensures Left(LocalStep(l).0, msg) < Left(l, msg)
  {
    var p := l.proc;
    var k := p.mode.kid;
    assert LeftProc(p, msg) >= 1 + SizeKids(p.kids[k + 1..]);
    if !p.kids[k].up.value {
      CollectCalm(l, msg);
      GoOnLeft(l.(proc := Proc(p.name, Idle, p.kids[k := p.kids[k].(up := None)])), msg, k + 1, p.kids);
    }
  }

  lemma CollectCalm(l: Link, msg: string)
    requires BusyProc(l.proc, msg) && l.down.None? && l.up.None? && l.proc.kids[l.proc.mode.kid].up.Some?
    ensures var p, k := l.proc, l.proc.mode.kid;
            Calm(l.(proc := Proc(p.name, Idle, p.kids[k := p.kids[k].(up := None)])))
  {
  }

  lemma GoOnLeft(l: Link, msg: string, from: nat, kids: seq<Link>)
    requires Calm(l) && from <= |l.proc.kids| == |kids| && l.proc.kids[from..] == kids[from..]
    ensures Busy(PassOn(l, msg, from), msg) && Left(PassOn(l, msg, from), msg) <= SizeKids(kids[from..])
  {
    PassOnLeft(l, msg, from);
  }

  lemma {:induction false} InnerLeft(l: Link, msg: string, path: Path)
    requires BusyProc(l.proc, msg) && l.down.None? && l.up.None?
    requires Enabled(l, path) && path != [] && path == Mover(l, msg) && Busy(Step(l, path).0, msg)
    ensures Left(Step(l, path).0, msg) < Left(l, msg)
    decreases |path|, 0
  {
    var k := path[0];
    var p := l.proc;
    StepLeft(p.kids[k], msg, path[1..]);
    var p' := Step(l, path).0.proc;
    assert p'.kids[k + 1..] == p.kids[k + 1..];
  }
}
