/** When a pull shows the current board. What is read and written where does not
    depend on the records, so the machine of `MemoryCopy` is also run over the
    sources of the records; the answers are then compared for all contents at
    once. */
module CopyTrace {
  import opened BulletinBoard
  import opened MemoryCopy

  /** Where a slot's record comes from: nowhere, the file as first read, or an event. */
  datatype Source = Nowhere | Old(slot: nat) | Written(event: nat)

  function WithRecord<T, U>(e: Event<T>, r: U): Event<U> {
    match e
    case Top => Top
    case Own(slot, _) => Own(slot, r)
    case Foreign(slot, _) => Foreign(slot, r)
    case Asked(locked) => Asked(locked)
  }

  /** The events, each writing its own number. */
  function Shape<T>(es: seq<Event<T>>): (shape: seq<Event<Source>>)
    ensures |shape| == |es|
  {
    seq(|es|, k requires 0 <= k < |es| => WithRecord(es[k], Written(k)))
  }

  function OldFile(n: nat): seq<Source> {
    seq(n, j requires 0 <= j => Old(j))
  }

  /** The run over sources, from a file of `n` records. */
  function Trace<T>(n: nat, es: seq<Event<T>>): (s: Site<Source>)
    requires n <= RECORD_NUM
    ensures SiteOk(s)
  {
    After(Nowhere, OldFile(n), Shape(es))
  }

  lemma TraceSnoc<T>(n: nat, es: seq<Event<T>>)
    requires n <= RECORD_NUM && es != []
    ensures var k := |es| - 1;
            Trace(n, es) == React(Nowhere, Trace(n, es[..k]), WithRecord(es[k], Written(k)))
  {
    assert Shape(es)[..|es| - 1] == Shape(es[..|es| - 1]);
  }

  // --------------------------------------------------- from sources to records

  /** One choice of contents. */
  datatype Contents = Contents(file: seq<Record>, es: seq<Event<Record>>)

  function Value(c: Contents, s: Source): Record {
    match s
    case Nowhere => EMPTY
    case Old(j) => if j < |c.file| then c.file[j] else EMPTY
    case Written(k) => if k < |c.es| && IsWrite(c.es[k]) then c.es[k].r else EMPTY
  }

  function Fill(c: Contents, sources: seq<Source>): (r: seq<Record>)
    ensures |r| == |sources|
  {
    seq(|sources|, i requires 0 <= i < |sources| => Value(c, sources[i]))
  }

  function FillSite(c: Contents, s: Site<Source>): Site<Record> {
    Site(Fill(c, s.file), Fill(c, s.copy), s.offset)
  }

  lemma FillPadded(c: Contents, file: seq<Source>)
    requires |file| <= RECORD_NUM
    ensures Fill(c, Padded(Nowhere, file)) == Padded(EMPTY, Fill(c, file))
  {
  }

  lemma FillWrite(c: Contents, file: seq<Source>, j: nat, s: Source)
    requires |file| <= RECORD_NUM && j < RECORD_NUM
    ensures Fill(c, WriteAt(Nowhere, file, j, s)) == WriteAt(EMPTY, Fill(c, file), j, Value(c, s))
  {
  }

  lemma FillTop(c: Contents, s: Site<Source>)
    requires SiteOk(s)
    ensures FillSite(c, React(Nowhere, s, Top)) == React(EMPTY, FillSite(c, s), Top)
  {
    var n := |s.file| - s.offset;
    assert Fill(c, s.file[s.offset..] + s.copy[n..]) == Fill(c, s.file)[s.offset..] + Fill(c, s.copy)[n..];
  }

  lemma FillReact(c: Contents, s: Site<Source>, e: Event<Source>, e': Event<Record>)
    requires SiteOk(s) && e' == WithRecord(e, if IsWrite(e) then Value(c, e.r) else EMPTY)
    ensures FillSite(c, React(Nowhere, s, e)) == React(EMPTY, FillSite(c, s), e')
  {
    match e
    case Top => FillTop(c, s);
    case Own(slot, r) => FillWrite(c, s.file, slot, r);
    case Foreign(slot, r) => FillWrite(c, s.file, slot, r);
    case Asked(_) =>
  }

  lemma StartFills(c: Contents)
    requires |c.file| <= RECORD_NUM
    ensures Start(EMPTY, c.file) == FillSite(c, Start(Nowhere, OldFile(|c.file|)))
  {
    FillPadded(c, OldFile(|c.file|));
    assert Fill(c, OldFile(|c.file|)) == c.file;
  }

  lemma Refilled(c: Contents, k: nat)
    requires k < |c.es|
    ensures var e := WithRecord(c.es[k], Written(k));
            c.es[k] == WithRecord(e, if IsWrite(e) then Value(c, e.r) else EMPTY)
  {
  }

  /** Every run is the run over sources with the contents filled in. */
  lemma {:induction false} TraceFills(c: Contents, es: seq<Event<Record>>)
    requires |c.file| <= RECORD_NUM && es <= c.es
    ensures After(EMPTY, c.file, es) == FillSite(c, Trace(|c.file|, es))
  {
    if es == [] {
      StartFills(c);
    } else {
      var k := |es| - 1;
      TraceFills(c, es[..k]);
      TraceSnoc(|c.file|, es);
      Refilled(c, k);
      FillReact(c, Trace(|c.file|, es[..k]), WithRecord(es[k], Written(k)), es[k]);
    }
  }

  // -------------------------------------------------------- answers over sources

  /** The sources of the records a pull could send, in order. */
  function Listed(slots: seq<Source>, locked: set<int>): seq<Source> {
    if slots == [] then []
    else
      var n := |slots| - 1;
      Listed(slots[..n], locked) + (if n !in locked && slots[n] != Nowhere then [slots[n]] else [])
  }

  function ShownOf(c: Contents, sources: seq<Source>): seq<Record> {
    if sources == [] then []
    else
      var n := |sources| - 1;
      ShownOf(c, sources[..n]) + (if Shown(Value(c, sources[n])) then [Value(c, sources[n])] else [])
  }

  lemma {:induction false} VisibleFilled(c: Contents, slots: seq<Source>, locked: set<int>)
    ensures Visible(Fill(c, slots), locked) == ShownOf(c, Listed(slots, locked))
  {
    if slots != [] {
      var n := |slots| - 1;
      VisibleFilled(c, slots[..n], locked);
      assert Fill(c, slots)[..n] == Fill(c, slots[..n]);
      var prior := Listed(slots[..n], locked);
      assert (prior + [slots[n]])[..|prior|] == prior;
      assert prior + [] == prior;
    }
  }

  lemma {:induction false} ListedFrom(slots: seq<Source>, locked: set<int>, s: Source)
    ensures s in Listed(slots, locked) <==>
            s != Nowhere && exists i :: 0 <= i < |slots| && i !in locked && slots[i] == s
  {
    if slots != [] {
      var n := |slots| - 1;
      ListedFrom(slots[..n], locked, s);
      if i :| 0 <= i < |slots| && i !in locked && slots[i] == s {
        assert i < n ==> slots[..n][i] == s;
      }
      if i :| 0 <= i < n && i !in locked && slots[..n][i] == s { assert slots[i] == s; }
    }
  }

  lemma {:induction false} ShownAppend(c: Contents, a: seq<Source>, b: seq<Source>)
    ensures ShownOf(c, a + b) == ShownOf(c, a) + ShownOf(c, b)
  {
    if b == [] {
      assert a + b == a;
    } else {
      var n := |b| - 1;
      ShownAppend(c, a, b[..n]);
      assert (a + b)[..|a| + n] == a + b[..n];
    }
  }

  lemma BodyFirst(r: Record, rs: seq<Record>)
    ensures PullBody([r] + rs) == Starred(r) + PullBody(rs)
  {
    assert ([r] + rs)[1..] == rs;
  }

  lemma {:induction false} BodyAppend(a: seq<Record>, b: seq<Record>)
    ensures PullBody(a + b) == PullBody(a) + PullBody(b)
  {
    if a == [] {
      assert a + b == b;
    } else {
      var r, rest := a[0], a[1..];
      BodyAppend(rest, b);
      BodyFirst(r, rest);
      BodyFirst(r, rest + b);
      assert a == [r] + rest && a + b == [r] + (rest + b);
      Associate(Starred(r), PullBody(rest), PullBody(b));
    }
  }

  lemma ShownOne(c: Contents, s: Source)
    requires Shown(Value(c, s))
    ensures ShownOf(c, [s]) == [Value(c, s)]
  {
    assert [s][..0] == [];
  }

  /** The body sent for a list, in three parts. */
  lemma BodyParts(c: Contents, all: seq<Source>, i: nat)
    requires i < |all| && Shown(Value(c, all[i]))
    ensures PullBody(ShownOf(c, all)) ==
            PullBody(ShownOf(c, all[..i])) + (Starred(Value(c, all[i])) + PullBody(ShownOf(c, all[i + 1..])))
  {
    var a, s, b := all[..i], all[i], all[i + 1..];
    assert all == a + ([s] + b);
    ShownAppend(c, a, [s] + b);
    ShownAppend(c, [s], b);
    ShownOne(c, s);
    BodyAppend(ShownOf(c, a), [Value(c, s)] + ShownOf(c, b));
    BodyFirst(Value(c, s), ShownOf(c, b));
  }

  // ------------------------------------------------------------ choosing contents

  const SHORT: Record := Record("x", "x")
  const LONG: Record := Record("x", "xx")

  function Chosen(short: Source, long: Source, s: Source): Record {
    if s == short then SHORT else if s == long then LONG else EMPTY
  }

  /** Contents of the shape of `es` in which only two sources hold anything. */
  function Choose(n: nat, es: seq<Event<Record>>, short: Source, long: Source): (c: Contents)
    ensures |c.file| == n && |c.es| == |es|
  {
    Contents(seq(n, j requires 0 <= j => Chosen(short, long, Old(j))),
             seq(|es|, k requires 0 <= k < |es| => WithRecord(es[k], Chosen(short, long, Written(k)))))
  }

  /** A source that a run from `n` records over `es` knows. */
  predicate Known<T>(n: nat, es: seq<Event<T>>, s: Source) {
    match s
    case Nowhere => true
    case Old(j) => j < n
    case Written(k) => k < |es| && IsWrite(es[k])
  }

  lemma ChosenValue(n: nat, es: seq<Event<Record>>, short: Source, long: Source, s: Source)
    requires Known(n, es, s) && s != Nowhere
    ensures Value(Choose(n, es, short, long), s) == Chosen(short, long, s)
  {
  }

  ghost predicate SameShape(es: seq<Event<Record>>, es': seq<Event<Record>>) {
    Shape(es') == Shape(es)
  }

  lemma ChooseShape(n: nat, es: seq<Event<Record>>, short: Source, long: Source)
    ensures SameShape(es, Choose(n, es, short, long).es)
  {
  }

  ghost predicate AllKnown<T>(n: nat, es: seq<Event<T>>, sources: seq<Source>) {
    forall i :: 0 <= i < |sources| ==> Known(n, es, sources[i])
  }

  lemma {:induction false} TraceKnown<T>(n: nat, es: seq<Event<T>>)
    requires n <= RECORD_NUM
    ensures AllKnown(n, es, Trace(n, es).file) && AllKnown(n, es, Trace(n, es).copy)
  {
    if es != [] {
      var k := |es| - 1;
      var t := Trace(n, es[..k]);
      TraceKnown(n, es[..k]);
      TraceSnoc(n, es);
      assert forall s :: Known(n, es[..k], s) ==> Known(n, es, s);
      if IsWrite(es[k]) {
        KnownWrite(n, es, t.file, es[k].slot);
      } else {
        TopAt(Nowhere, t);
      }
    }
  }

  lemma KnownWrite<T>(n: nat, es: seq<Event<T>>, file: seq<Source>, j: nat)
    requires es != [] && IsWrite(es[|es| - 1]) && AllKnown(n, es, file)
    ensures AllKnown(n, es, WriteAt(Nowhere, file, j, Written(|es| - 1)))
  {
  }

  lemma ListedKnown<T>(n: nat, es: seq<Event<T>>, slots: seq<Source>, locked: set<int>)
    requires AllKnown(n, es, slots)
    ensures forall s :: s in Listed(slots, locked) ==> s != Nowhere && Known(n, es, s)
  {
    forall s | s in Listed(slots, locked) ensures s != Nowhere && Known(n, es, s) {
      ListedFrom(slots, locked, s);
    }
  }

  // ----------------------------------------------------- different lists, different texts

  lemma {:induction false} FirstDifference(a: seq<Source>, b: seq<Source>) returns (i: nat)
    requires a != b
    ensures i <= |a| && i <= |b| && a[..i] == b[..i] && (i < |a| || i < |b|)
    ensures i < |a| && i < |b| ==> a[i] != b[i]
  {
    if a == [] || b == [] || a[0] != b[0] {
      i := 0;
    } else {
      var k := FirstDifference(a[1..], b[1..]);
      i := k + 1;
      assert a[..i] == [a[0]] + a[1..][..k] && b[..i] == [b[0]] + b[1..][..k];
    }
  }

  /** The list goes on where the other ends. */
  lemma LongerBody(c: Contents, a: seq<Source>, i: nat)
    requires i < |a| && Shown(Value(c, a[i]))
    ensures PullBody(ShownOf(c, a)) != PullBody(ShownOf(c, a[..i]))
  {
    BodyParts(c, a, i);
  }

  /** The lists part with a short and a long record. */
  lemma DifferentBody(c: Contents, a: seq<Source>, b: seq<Source>, i: nat)
    requires i < |a| && i < |b| && a[..i] == b[..i]
    requires Value(c, a[i]) == SHORT && Value(c, b[i]) == LONG
    ensures PullBody(ShownOf(c, a)) != PullBody(ShownOf(c, b))
  {
    BodyParts(c, a, i);
    BodyParts(c, b, i);
    var head := PullBody(ShownOf(c, a[..i]));
    FourthCharacter(head, PullBody(ShownOf(c, a[i + 1..])), PullBody(ShownOf(c, b[i + 1..])));
  }

  lemma FourthCharacter(head: string, s: string, t: string)
    ensures head + (Starred(SHORT) + s) != head + (Starred(LONG) + t)
  {
    assert (head + (Starred(SHORT) + s))[|head| + 3] == '*';
    assert (head + (Starred(LONG) + t))[|head| + 3] == 'x';
  }

  /** Contents for which two different lists of sources give different messages. */
  lemma TellApart(n: nat, es: seq<Event<Record>>, a: seq<Source>, b: seq<Source>) returns (c: Contents)
    requires a != b && forall s :: s in a || s in b ==> s != Nowhere && Known(n, es, s)
    ensures |c.file| == n && SameShape(es, c.es)
    ensures PullText(ShownOf(c, a)) != PullText(ShownOf(c, b))
  {
    var i := FirstDifference(a, b);
    var short := if i < |a| then a[i] else b[i];
    var long := if i < |b| then b[i] else a[i];
    c := Choose(n, es, short, long);
    ChooseShape(n, es, short, long);
    ChosenValue(n, es, short, long, short);
    ChosenValue(n, es, short, long, long);
    if i == |a| {
      assert b[..i] == a;
      LongerBody(c, b, i);
    } else if i == |b| {
      assert a[..i] == b;
      LongerBody(c, a, i);
    } else {
      DifferentBody(c, a, b, i);
    }
    TextOfBody(ShownOf(c, a), ShownOf(c, b));
  }

  lemma TextOfBody(rs: seq<Record>, rs': seq<Record>)
    requires PullBody(rs) != PullBody(rs')
    ensures PullText(rs) != PullText(rs')
  {
    assert PullText(rs)[1..] == PullBody(rs);
    assert PullText(rs')[1..] == PullBody(rs');
  }

  // ------------------------------------------------------------ the exact condition

  /** Whatever records the file held and were written, a pull now is answered as
      from the board as it is now. */
  ghost predicate AlwaysCurrent(n: nat, es: seq<Event<Record>>, locked: set<int>)
    requires n <= RECORD_NUM
  {
    forall c: Contents :: |c.file| == n && SameShape(es, c.es) ==> Current(After(EMPTY, c.file, c.es), locked)
  }

  /** The unlocked slots of the copy and of the file hold, in the same order,
      records from the same places. */
  predicate SameSources<T>(n: nat, es: seq<Event<T>>, locked: set<int>)
    requires n <= RECORD_NUM
  {
    Listed(Trace(n, es).copy, locked) == Listed(Padded(Nowhere, Trace(n, es).file), locked)
  }

  lemma AnswersFilled(c: Contents, locked: set<int>)
    requires |c.file| <= RECORD_NUM
    ensures var t, s := Trace(|c.file|, c.es), After(EMPTY, c.file, c.es);
            && Visible(s.copy, locked) == ShownOf(c, Listed(t.copy, locked))
            && Visible(SlotsOf(s), locked) == ShownOf(c, Listed(Padded(Nowhere, t.file), locked))
  {
    var t := Trace(|c.file|, c.es);
    TraceFills(c, c.es);
    VisibleFilled(c, t.copy, locked);
    VisibleFilled(c, Padded(Nowhere, t.file), locked);
    FillPadded(c, t.file);
  }

  /** A pull is current for all contents exactly when it is so over the sources. */
  lemma PullCurrentIff(n: nat, es: seq<Event<Record>>, locked: set<int>)
    requires n <= RECORD_NUM
    ensures AlwaysCurrent(n, es, locked) <==> SameSources(n, es, locked)
  {
    if SameSources(n, es, locked) {
      forall c: Contents | |c.file| == n && SameShape(es, c.es)
        ensures Current(After(EMPTY, c.file, c.es), locked)
      {
        AnswersFilled(c, locked);
      }
    } else {
      var t := Trace(n, es);
      TraceKnown(n, es);
      ListedKnown(n, es, t.copy, locked);
      ListedKnown(n, es, Padded(Nowhere, t.file), locked);
      var c := TellApart(n, es, Listed(t.copy, locked), Listed(Padded(Nowhere, t.file), locked));
      AnswersFilled(c, locked);
      assert !Current(After(EMPTY, c.file, c.es), locked);
    }
  }
}
