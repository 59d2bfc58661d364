/** The server's copy of the record file in memory. The file grows as slots are
    first written. The read at the top of the `select` loop continues at the file
    offset, which only a post of this very process moves back to the start; what
    it reads goes to the front of the copy, and pulls are answered from the copy.
    The machine is defined over any type of records with a blank one. */
module MemoryCopy {
  import opened BulletinBoard

  /** The shared file, and the copy in memory and file offset, in records, of one
      server process. */
  datatype Site<T> = Site(file: seq<T>, copy: seq<T>, offset: nat)

  type SlotNumber = j: nat | j < RECORD_NUM

  datatype Event<T> =
    | Top                              // the read at the top of an iteration
    | Own(slot: SlotNumber, r: T)      // this process writes a post
    | Foreign(slot: SlotNumber, r: T)  // another server process writes one
    | Asked(locked: set<int>)          // a pull request

  ghost predicate SiteOk<T>(s: Site<T>) {
    s.offset <= |s.file| <= RECORD_NUM == |s.copy|
  }

  function Blanks<T>(blank: T, n: nat): (r: seq<T>)
    ensures |r| == n
  {
    seq(n, _ => blank)
  }

  /** The slots a file stands for: those past its end are blank. */
  function Padded<T>(blank: T, file: seq<T>): (slots: seq<T>)
    requires |file| <= RECORD_NUM
    ensures |slots| == RECORD_NUM
  {
    file + Blanks(blank, RECORD_NUM - |file|)
  }

  /** A write at slot `j`; one past the end leaves a hole of zeros. */
  function WriteAt<T>(blank: T, file: seq<T>, j: nat, r: T): seq<T> {
    if j < |file| then file[j := r] else file + Blanks(blank, j - |file|) + [r]
  }

  predicate IsWrite<T>(e: Event<T>) {
    e.Own? || e.Foreign?
  }

  function FileAfter<T>(blank: T, s: Site<T>, e: Event<T>): (file: seq<T>)
    requires SiteOk(s)
    ensures |s.file| <= |file| <= RECORD_NUM
  {
    if IsWrite(e) then WriteAt(blank, s.file, e.slot, e.r) else s.file
  }

  /** A read brings what follows the offset to the front of the copy. */
  function CopyAfter<T>(s: Site<T>, e: Event<T>): (copy: seq<T>)
    requires SiteOk(s)
    ensures |copy| == RECORD_NUM
  {
    if e.Top? then s.file[s.offset..] + s.copy[|s.file| - s.offset..] else s.copy
  }

  function OffsetAfter<T>(s: Site<T>, e: Event<T>): (offset: nat)
    requires SiteOk(s)
    ensures offset <= |s.file|
  {
    if e.Top? then |s.file| else if e.Own? then 0 else s.offset
  }

  function React<T>(blank: T, s: Site<T>, e: Event<T>): (t: Site<T>)
    requires SiteOk(s)
    ensures SiteOk(t)
  {
    Site(FileAfter(blank, s, e), CopyAfter(s, e), OffsetAfter(s, e))
  }

  /** After the first read of the file the server has opened or created. */
  function Start<T>(blank: T, file: seq<T>): Site<T>
    requires |file| <= RECORD_NUM
  {
    Site(file, Padded(blank, file), |file|)
  }

  function After<T>(blank: T, file: seq<T>, es: seq<Event<T>>): (s: Site<T>)
    requires |file| <= RECORD_NUM
    ensures SiteOk(s)
  {
    if es == [] then Start(blank, file) else React(blank, After(blank, file, es[..|es| - 1]), es[|es| - 1])
  }

  /** The slots as they are, whatever this process has read of them. */
  function SlotsOf(s: Site<Record>): seq<Record>
    requires SiteOk(s)
  {
    Padded(EMPTY, s.file)
  }

  function Answer(s: Site<Record>, locked: set<int>): string {
    PullText(Visible(s.copy, locked))
  }

  /** A pull now would be answered as from the board as it is now. */
  predicate Current(s: Site<Record>, locked: set<int>)
    requires SiteOk(s)
  {
    Answer(s, locked) == PullText(Visible(SlotsOf(s), locked))
  }

  /** The messages the pulls among `es` are answered with. */
  function Answers(file: seq<Record>, es: seq<Event<Record>>): seq<string>
    requires |file| <= RECORD_NUM
  {
    if es == [] then []
    else
      var n := |es| - 1;
      Answers(file, es[..n]) +
      (if es[n].Asked? then [Answer(After(EMPTY, file, es[..n]), es[n].locked)] else [])
  }

  // ------------------------------------------------------------------ basic facts

  /** The first read of a server. */
  lemma FirstRead(file: seq<Record>)
    requires |file| <= RECORD_NUM
    ensures React(EMPTY, Site(file, Blanks(EMPTY, RECORD_NUM), 0), Top) == After(EMPTY, file, [])
  {
    var s := Site(file, Blanks(EMPTY, RECORD_NUM), 0);
    assert s.copy[|file|..] == Blanks(EMPTY, RECORD_NUM - |file|);
    assert s.file[0..] == file;
    assert CopyAfter(s, Top) == Padded(EMPTY, file);
  }

  lemma PaddedWrite<T>(blank: T, file: seq<T>, j: nat, r: T)
    requires |file| <= RECORD_NUM && j < RECORD_NUM
    ensures |WriteAt(blank, file, j, r)| <= RECORD_NUM
    ensures Padded(blank, WriteAt(blank, file, j, r)) == Padded(blank, file)[j := r]
  {
  }

  lemma WriteLands<T>(blank: T, s: Site<T>, e: Event<T>)
    requires SiteOk(s) && IsWrite(e)
    ensures Padded(blank, React(blank, s, e).file) == Padded(blank, s.file)[e.slot := e.r]
  {
    PaddedWrite(blank, s.file, e.slot, e.r);
  }

  /** What a read does slot by slot. */
  lemma TopAt<T>(blank: T, s: Site<T>)
    requires SiteOk(s)
    ensures var t := React(blank, s, Top);
            forall i :: 0 <= i < RECORD_NUM ==>
              t.copy[i] == if i < |s.file| - s.offset then s.file[s.offset + i] else s.copy[i]
  {
  }

  ghost predicate BlankPast<T>(blank: T, s: Site<T>)
    requires SiteOk(s)
  {
    forall i :: |s.file| <= i < RECORD_NUM ==> s.copy[i] == blank
  }

  lemma BlankPastStep<T>(blank: T, s: Site<T>, e: Event<T>)
    requires SiteOk(s) && BlankPast(blank, s)
    ensures BlankPast(blank, React(blank, s, e))
  {
    match e
    case Top => TopAt(blank, s);
    case _ => assert React(blank, s, e).copy == s.copy;
  }

  /** The copy is blank past the end of the file. */
  lemma {:induction false} TailBlank<T>(blank: T, file: seq<T>, es: seq<Event<T>>)
    requires |file| <= RECORD_NUM
    ensures BlankPast(blank, After(blank, file, es))
  {
    if es != [] {
      var prior := es[..|es| - 1];
      TailBlank(blank, file, prior);
      BlankPastStep(blank, After(blank, file, prior), es[|es| - 1]);
    }
  }

  /** A read from the start renews the whole copy. */
  lemma FullRead<T>(blank: T, file: seq<T>, es: seq<Event<T>>)
    requires |file| <= RECORD_NUM && After(blank, file, es).offset == 0
    ensures var s := After(blank, file, es);
            React(blank, s, Top).copy == Padded(blank, s.file)
  {
    TailBlank(blank, file, es);
  }

  // ---------------------------------------------------------------- stale answers

  lemma {:induction false} OneVisible(slots: seq<Record>, locked: set<int>)
    requires slots != [] && 0 !in locked && forall j :: 1 <= j < |slots| ==> j in locked || !Shown(slots[j])
    ensures Visible(slots, locked) == if Shown(slots[0]) then [slots[0]] else []
  {
    var n := |slots| - 1;
    if n > 0 { OneVisible(slots[..n], locked); }
  }

  /** On a new board even a process that never posts reads on, from the start,
      when another one writes the first record. */
  lemma NewBoardReread(r: Record)
    ensures After(EMPTY, [], [Foreign(0, r), Top]).copy == Padded(EMPTY, [r])
  {
    var es := [Foreign(0, r), Top];
    assert es[..1] == [Foreign(0, r)] && es[..1][..0] == [];
    assert After(EMPTY, [], es[..1]).file == [r];
    FullRead(EMPTY, [], es[..1]);
  }

  /** On a board of one record the next one is read into the slot of the first:
      with its own slot locked a pull still shows it, instead of the first. */
  lemma ShiftedRead(a: Record, b: Record)
    requires Shown(a) && Shown(b)
    ensures var s := After(EMPTY, [a], [Foreign(1, b), Top]);
            && s.copy == Padded(EMPTY, [b]) && SlotsOf(s) == Padded(EMPTY, [a, b])
            && Visible(s.copy, {1}) == [b] && Visible(SlotsOf(s), {1}) == [a]
  {
    var es := [Foreign(1, b), Top];
    assert es[..1] == [Foreign(1, b)] && es[..1][..0] == [];
    assert After(EMPTY, [a], es[..1]) == Site([a, b], Padded(EMPTY, [a]), 1);
    OneVisible(Padded(EMPTY, [b]), {1});
    OneVisible(Padded(EMPTY, [a, b]), {1});
  }
}
