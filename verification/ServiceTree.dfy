/** HW2's services as a tree of processes that talk over pipes, one message at a
    time. `Step` lets one process make one move: take a message and answer it or
    pass it on, or take a child's answer. The reference is a recursive search. */
module ServiceTree {
  import opened CommandText

  datatype Option<+T> = None | Some(value: T)

  /** A process is reading its pipe, or waiting for the answer of one child to
      the message it passed on. */
  datatype Mode = Idle | Waiting(kid: nat, msg: string)

  datatype Proc = Proc(name: string, mode: Mode, kids: seq<Link>)

  /** A child as its parent records it, with the two pipes between them; an
      answer is `true` for "yes" and `false` for "not". */
  datatype Link = Link(killed: bool, down: Option<string>, up: Option<bool>, proc: Proc)

  /** The line "`name` has received `text`". */
  datatype Received = Received(name: string, text: string)

  // ------------------------------------------------------------ one process's part

  /** A message is addressed by its first field; `spawn` is told by its first
      letter. */
  function Target(msg: string): string {
    Field(msg, 1)
  }

  predicate IsSpawn(msg: string) {
    msg != "" && msg[0] == 's'
  }

  /** The search half of a kill prints the command it serves. */
  function Announced(msg: string): string {
    if IsSpawn(msg) then msg else "kill " + Target(msg)
  }

  function NewChild(name: string): Link {
    Link(false, None, None, Proc(name, Idle, []))
  }

  /** What the service that is named does. */
  function Serve(p: Proc, msg: string): Proc {
    if IsSpawn(msg) then p.(kids := p.kids + [NewChild(Field(msg, 2))]) else p
  }

  function FirstLive(kids: seq<Link>, from: nat): (k: nat)
    requires from <= |kids|
    ensures from <= k <= |kids|
    ensures forall j :: from <= j < k ==> kids[j].killed
    ensures k < |kids| ==> !kids[k].killed
    decreases |kids| - from
  {
    if from == |kids| || !kids[from].killed then from else FirstLive(kids, from + 1)
  }

  /** Pass `msg` on to the next live child, or answer "not". */
  function PassOn(l: Link, msg: string, from: nat): Link
    requires from <= |l.proc.kids|
  {
    var p := l.proc;
    var k := FirstLive(p.kids, from);
    if k == |p.kids| then
      l.(up := Some(false), proc := p.(mode := Idle))
    else
      l.(proc := p.(mode := Waiting(k, msg), kids := p.kids[k := p.kids[k].(down := Some(msg))]))
  }

  predicate LocalEnabled(l: Link) {
    match l.proc.mode
    case Idle => l.down.Some?
    case Waiting(k, _) => k < |l.proc.kids| && l.proc.kids[k].up.Some?
  }

  /** One move of the process at the end of `l`, and what it prints. */
  function LocalStep(l: Link): (Link, seq<Received>)
    requires LocalEnabled(l)
  {
    var p := l.proc;
    match p.mode
    case Idle =>
      var msg := l.down.value;
      var l' := l.(down := None);
      var line := Received(p.name, Announced(msg));
      if p.name == Target(msg) then (l'.(up := Some(true), proc := Serve(p, msg)), [line])
      else (PassOn(l', msg, 0), [line])
    case Waiting(k, msg) =>
      var yes := p.kids[k].up.value;
      var p' := p.(mode := Idle, kids := p.kids[k := p.kids[k].(up := None)]);
      if yes then (l.(up := Some(true), proc := p'), [])
      else (PassOn(l.(proc := p'), msg, k + 1), [])
  }

  // -------------------------------------------------------------- the whole system

  /** Which process moves, as the child numbers on the way to it. */
  type Path = seq<nat>

  predicate Enabled(l: Link, path: Path)
    decreases |path|
  {
    if path == [] then LocalEnabled(l)
    else path[0] < |l.proc.kids| && Enabled(l.proc.kids[path[0]], path[1..])
  }

  function Step(l: Link, path: Path): (Link, seq<Received>)
    requires Enabled(l, path)
    decreases |path|
  {
    if path == [] then LocalStep(l)
    else
      var (kid, lines) := Step(l.proc.kids[path[0]], path[1..]);
      (l.(proc := l.proc.(kids := l.proc.kids[path[0] := kid])), lines)
  }

  predicate Allowed(l: Link, run: seq<Path>)
    decreases |run|
  {
    run == [] || (Enabled(l, run[0]) && Allowed(Step(l, run[0]).0, run[1..]))
  }

  function After(l: Link, run: seq<Path>): (Link, seq<Received>)
    requires Allowed(l, run)
    decreases |run|
  {
    if run == [] then (l, [])
    else
      var (next, lines) := Step(l, run[0]);
      var (last, more) := After(next, run[1..]);
      (last, lines + more)
  }

  // --------------------------------------------------------- the recursive reference

  datatype Outcome<T> = Outcome(found: bool, tree: T, log: seq<Received>)

  /** Nobody in the subtree is serving a message. */
  ghost predicate Quiet(p: Proc) {
    p.mode.Idle? && forall k :: 0 <= k < |p.kids| ==> Calm(p.kids[k])
  }

  ghost predicate Calm(l: Link) {
    l.down.None? && l.up.None? && Quiet(l.proc)
  }

  function Search(p: Proc, msg: string): Outcome<Proc>
    decreases p
  {
    var line := Received(p.name, Announced(msg));
    if p.name == Target(msg) then Outcome(true, Serve(p, msg), [line])
    else
      var r := SearchKids(p.kids, msg);
      Outcome(r.found, p.(kids := r.tree), [line] + r.log)
  }

  /** A killed child is passed over. */
  function SearchLink(l: Link, msg: string): Outcome<Link>
    decreases l
  {
    if l.killed then Outcome(false, l, [])
    else
      var r := Search(l.proc, msg);
      Outcome(r.found, l.(proc := r.tree), r.log)
  }

  function SearchKids(kids: seq<Link>, msg: string): (r: Outcome<seq<Link>>)
    ensures |r.tree| == |kids|
    decreases kids
  {
    if kids == [] then Outcome(false, [], [])
    else
      var r := SearchLink(kids[0], msg);
      if r.found then Outcome(true, [r.tree] + kids[1..], r.log)
      else
        var rest := SearchKids(kids[1..], msg);
        Outcome(rest.found, [r.tree] + rest.tree, r.log + rest.log)
  }
}
