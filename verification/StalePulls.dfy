/** What the copy in memory shows, in terms of the reads and writes there were:
    the board at the last read from the start of the file, unless a later read
    started in the middle. */
module StalePulls {
  import opened BulletinBoard
  import opened MemoryCopy
  import opened CopyTrace

  /** The process after the first `k` events, over sources. */
  function At<T>(n: nat, es: seq<Event<T>>, k: nat): (t: Site<Source>)
    requires n <= RECORD_NUM && k <= |es|
    ensures SiteOk(t)
  {
    if k == 0 then Start(Nowhere, OldFile(n))
    else React(Nowhere, At(n, es, k - 1), WithRecord(es[k - 1], Written(k - 1)))
  }

  lemma {:induction false} AtIsTrace<T>(n: nat, es: seq<Event<T>>, k: nat)
    requires n <= RECORD_NUM && k <= |es|
    ensures At(n, es, k) == Trace(n, es[..k])
    decreases k
  {
    if k == 0 {
      assert es[..0] == [];
    } else {
      AtIsTrace(n, es, k - 1);
      assert es[..k][..k - 1] == es[..k - 1];
      TraceSnoc(n, es[..k]);
    }
  }

  lemma AtEnds<T>(n: nat, es: seq<Event<T>>)
    requires n <= RECORD_NUM
    ensures At(n, es, |es|) == Trace(n, es)
  {
    assert es[..|es|] == es;
    AtIsTrace(n, es, |es|);
  }

  /** How many of the first `k` events there had been at the last read from the
      start of the file among them; none if that was the very first read. */
  function ReadBefore<T>(n: nat, es: seq<Event<T>>, k: nat): (m: nat)
    requires n <= RECORD_NUM && k <= |es|
    ensures m <= k
  {
    if k == 0 then 0
    else if es[k - 1].Top? && At(n, es, k - 1).offset == 0 then k
    else ReadBefore(n, es, k - 1)
  }

  function LastRead<T>(n: nat, es: seq<Event<T>>): (m: nat)
    requires n <= RECORD_NUM
    ensures m <= |es|
  {
    ReadBefore(n, es, |es|)
  }

  /** Event `k` reads records, but not from the start: the file has grown. */
  predicate Shifts<T>(n: nat, es: seq<Event<T>>, k: nat)
    requires n <= RECORD_NUM && k < |es|
  {
    es[k].Top? && 0 < At(n, es, k).offset < |At(n, es, k).file|
  }

  ghost predicate NoShift<T>(n: nat, es: seq<Event<T>>)
    requires n <= RECORD_NUM
  {
    forall k :: LastRead(n, es) <= k < |es| ==> !Shifts(n, es, k)
  }

  /** Has one of the first `k` events since the last read from the start done so? */
  predicate Shifted<T>(n: nat, es: seq<Event<T>>, k: nat)
    requires n <= RECORD_NUM && k <= |es|
  {
    ReadBefore(n, es, k) < k && (Shifted(n, es, k - 1) || Shifts(n, es, k - 1))
  }

  lemma {:induction false} ShiftedIff<T>(n: nat, es: seq<Event<T>>, k: nat)
    requires n <= RECORD_NUM && k <= |es|
    ensures Shifted(n, es, k) <==> exists j :: ReadBefore(n, es, k) <= j < k && Shifts(n, es, j)
    decreases k
  {
    if ReadBefore(n, es, k) < k { ShiftedIff(n, es, k - 1); }
  }

  /** The slots of the file after the first `m` events. */
  function SlotsAt<T>(n: nat, es: seq<Event<T>>, m: nat): (slots: seq<Source>)
    requires n <= RECORD_NUM && m <= |es|
    ensures |slots| == RECORD_NUM
  {
    Padded(Nowhere, At(n, es, m).file)
  }

  // ------------------------------------------------------- the copy is a snapshot

  /** A read from the start, and the very first read. */
  lemma FullReadAt<T>(n: nat, es: seq<Event<T>>, k: nat)
    requires n <= RECORD_NUM && k <= |es| && ReadBefore(n, es, k) == k
    ensures At(n, es, k).copy == SlotsAt(n, es, k) && At(n, es, k).offset == |At(n, es, k).file|
  {
    if k > 0 {
      AtIsTrace(n, es, k - 1);
      FullRead(Nowhere, OldFile(n), Shape(es[..k - 1]));
    }
  }

  lemma {:induction false} SnapshotTrace<T>(n: nat, es: seq<Event<T>>, k: nat)
    requires n <= RECORD_NUM && k <= |es| && !Shifted(n, es, k)
    ensures At(n, es, k).copy == SlotsAt(n, es, ReadBefore(n, es, k))
    decreases k
  {
    if ReadBefore(n, es, k) == k {
      FullReadAt(n, es, k);
    } else {
      SnapshotTrace(n, es, k - 1);
      NothingRead(At(n, es, k - 1), At(n, es, k), WithRecord(es[k - 1], Written(k - 1)));
    }
  }

  lemma NothingRead(t: Site<Source>, u: Site<Source>, e: Event<Source>)
    requires SiteOk(t) && u == React(Nowhere, t, e)
    ensures (e.Top? && t.offset < |t.file|) || u.copy == t.copy
  {
    if e.Top? { TopAt(Nowhere, t); }
  }

  predicate Newer(s: Source, m: nat) {
    s.Written? && s.event >= m
  }

  ghost predicate HasNewer(sources: seq<Source>, m: nat) {
    exists i :: 0 <= i < |sources| && Newer(sources[i], m)
  }

  /** Since a read from the start of a file of `length` records: reads start past
      its end, and the last record of a file that has grown is newer. */
  ghost predicate Grown(t: Site<Source>, length: nat, m: nat) {
    && SiteOk(t) && length <= |t.file|
    && (t.offset == 0 || length <= t.offset)
    && (|t.file| > length ==> Newer(t.file[|t.file| - 1], m))
  }

  lemma GrownWrite(t: Site<Source>, e: Event<Source>, length: nat, m: nat)
    requires Grown(t, length, m) && IsWrite(e) && Newer(e.r, m)
    ensures Grown(React(Nowhere, t, e), length, m)
  {
  }

  /** A read from the middle brings something newer into the copy. */
  lemma GrownTop(t: Site<Source>, length: nat, m: nat)
    requires Grown(t, length, m)
    ensures Grown(React(Nowhere, t, Top), length, m)
    ensures 0 < t.offset < |t.file| ==> HasNewer(React(Nowhere, t, Top).copy, m)
    ensures t.offset == |t.file| ==> React(Nowhere, t, Top).copy == t.copy
  {
    var u := React(Nowhere, t, Top);
    TopAt(Nowhere, t);
    if 0 < t.offset < |t.file| { assert u.copy[|t.file| - t.offset - 1] == t.file[|t.file| - 1]; }
  }

  /** The same, with what the copy then shows if a read has started in the middle. */
  ghost predicate GrownRead(t: Site<Source>, length: nat, m: nat, shifted: bool) {
    Grown(t, length, m) && (shifted ==> HasNewer(t.copy, m))
  }

  lemma GrownStep(t: Site<Source>, u: Site<Source>, e: Event<Source>, length: nat, m: nat, shifted: bool)
    requires GrownRead(t, length, m, shifted) && !(e.Top? && t.offset == 0) && (IsWrite(e) ==> Newer(e.r, m))
    requires u == React(Nowhere, t, e)
    ensures GrownRead(u, length, m, shifted || (e.Top? && t.offset < |t.file|))
  {
    if e.Top? { GrownTop(t, length, m); } else if IsWrite(e) { GrownWrite(t, e, length, m); }
  }

  lemma SinceReadStep<T>(n: nat, es: seq<Event<T>>, k: nat, length: nat, m: nat, shifted: bool)
    requires n <= RECORD_NUM && m < k <= |es| && GrownRead(At(n, es, k - 1), length, m, shifted)
    requires !(es[k - 1].Top? && At(n, es, k - 1).offset == 0)
    ensures GrownRead(At(n, es, k), length, m, shifted || Shifts(n, es, k - 1))
  {
    GrownStep(At(n, es, k - 1), At(n, es, k), WithRecord(es[k - 1], Written(k - 1)), length, m, shifted);
  }

  lemma {:induction false} SinceRead<T>(n: nat, es: seq<Event<T>>, k: nat)
    requires n <= RECORD_NUM && k <= |es|
    ensures var m := ReadBefore(n, es, k);
            GrownRead(At(n, es, k), |At(n, es, m).file|, m, Shifted(n, es, k))
    decreases k
  {
    var m := ReadBefore(n, es, k);
    if m == k {
      FullReadAt(n, es, k);
    } else {
      SinceRead(n, es, k - 1);
      SinceReadStep(n, es, k, |At(n, es, m).file|, m, Shifted(n, es, k - 1));
    }
  }

  /** Whatever the records, the copy is the board as it was after `m` events. */
  ghost predicate AlwaysSnapshot(n: nat, es: seq<Event<Record>>, m: nat)
    requires n <= RECORD_NUM && m <= |es|
  {
    forall c: Contents :: |c.file| == n && SameShape(es, c.es) ==>
      After(EMPTY, c.file, c.es).copy == SlotsOf(After(EMPTY, c.file, c.es[..m]))
  }

  lemma SnapshotFilled(c: Contents, m: nat)
    requires |c.file| <= RECORD_NUM && m <= |c.es|
    ensures After(EMPTY, c.file, c.es).copy == Fill(c, Trace(|c.file|, c.es).copy)
    ensures SlotsOf(After(EMPTY, c.file, c.es[..m])) == Fill(c, SlotsAt(|c.file|, c.es, m))
  {
    TraceFills(c, c.es);
    TraceFills(c, c.es[..m]);
    AtIsTrace(|c.file|, c.es, m);
    FillPadded(c, At(|c.file|, c.es, m).file);
  }

  lemma ShapePrefix(es: seq<Event<Record>>, es': seq<Event<Record>>, m: nat)
    requires SameShape(es, es') && m <= |es|
    ensures |es'| == |es| && SameShape(es[..m], es'[..m])
  {
    assert Shape(es[..m]) == Shape(es)[..m];
    assert Shape(es'[..m]) == Shape(es')[..m];
  }

  lemma SameAt(n: nat, es: seq<Event<Record>>, es': seq<Event<Record>>, m: nat)
    requires n <= RECORD_NUM && SameShape(es, es') && m <= |es|
    ensures |es'| == |es| && At(n, es', m) == At(n, es, m)
  {
    ShapePrefix(es, es', m);
    AtIsTrace(n, es, m);
    AtIsTrace(n, es', m);
  }

  /** The copy is the board as it was at the last read from the start exactly when
      no read since then has started in the middle of the file. */
  lemma SnapshotIff(n: nat, es: seq<Event<Record>>)
    requires n <= RECORD_NUM
    ensures AlwaysSnapshot(n, es, LastRead(n, es)) <==> NoShift(n, es)
  {
    var m := LastRead(n, es);
    ShiftedIff(n, es, |es|);
    AtEnds(n, es);
    if NoShift(n, es) {
      SnapshotTrace(n, es, |es|);
      forall c: Contents | |c.file| == n && SameShape(es, c.es)
        ensures After(EMPTY, c.file, c.es).copy == SlotsOf(After(EMPTY, c.file, c.es[..m]))
      {
        SameAt(n, es, c.es, m);
        SnapshotFilled(c, m);
      }
    } else {
      SinceRead(n, es, |es|);
      var i :| 0 <= i < RECORD_NUM && Newer(Trace(n, es).copy[i], m);
      var c := NewerShows(n, es, m, i);
    }
  }

  /** Contents for which a newer source in the copy is seen. */
  lemma NewerShows(n: nat, es: seq<Event<Record>>, m: nat, i: nat) returns (c: Contents)
    requires n <= RECORD_NUM && m <= |es| && i < RECORD_NUM && Newer(Trace(n, es).copy[i], m)
    ensures |c.file| == n && SameShape(es, c.es)
    ensures After(EMPTY, c.file, c.es).copy != SlotsOf(After(EMPTY, c.file, c.es[..m]))
  {
    var s := Trace(n, es).copy[i];
    c := Choose(n, es, s, s);
    ChooseShape(n, es, s, s);
    SameAt(n, es, c.es, m);
    SnapshotFilled(c, m);
    TraceKnown(n, es);
    TraceKnown(n, es[..m]);
    AtIsTrace(n, es, m);
    ChosenValue(n, es, s, s, s);
    var earlier := SlotsAt(n, es, m)[i];
    assert Known(n, es[..m], earlier);
    assert After(EMPTY, c.file, c.es).copy[i] == SHORT;
    if earlier != Nowhere { ChosenValue(n, es, s, s, earlier); }
    assert SlotsOf(After(EMPTY, c.file, c.es[..m]))[i] == EMPTY;
  }

  // -------------------------------------------------------- a process that never posts

  predicate NeverPosts<T>(es: seq<Event<T>>) {
    forall k :: 0 <= k < |es| ==> !es[k].Own?
  }

  /** A write past the `n` records of the first read. */
  predicate Lengthens<T>(n: nat, e: Event<T>) {
    e.Foreign? && e.slot >= n
  }

  /** Somebody has written there, and then the process has read. */
  ghost predicate LengthenedAndRead<T>(n: nat, es: seq<Event<T>>) {
    exists i, k :: 0 <= i < k < |es| && Lengthens(n, es[i]) && es[k].Top?
  }

  /** The two among the first `k` events, one by one. */
  predicate Longer<T>(n: nat, es: seq<Event<T>>, k: nat)
    requires k <= |es|
  {
    k > 0 && (Longer(n, es, k - 1) || Lengthens(n, es[k - 1]))
  }

  predicate LongerRead<T>(n: nat, es: seq<Event<T>>, k: nat)
    requires k <= |es|
  {
    k > 0 && (LongerRead(n, es, k - 1) || (Longer(n, es, k - 1) && es[k - 1].Top?))
  }

  lemma {:induction false} LongerIff<T>(n: nat, es: seq<Event<T>>, k: nat)
    requires k <= |es|
    ensures Longer(n, es, k) <==> exists i :: 0 <= i < k && Lengthens(n, es[i])
  {
    if k > 0 { LongerIff(n, es, k - 1); }
  }

  lemma {:induction false} LongerReadIff<T>(n: nat, es: seq<Event<T>>, k: nat)
    requires k <= |es|
    ensures LongerRead(n, es, k) <==> exists i, j :: 0 <= i < j < k && Lengthens(n, es[i]) && es[j].Top?
  {
    if k > 0 {
      LongerReadIff(n, es, k - 1);
      LongerIff(n, es, k - 1);
    }
  }

  /** A process without posts of its own: has the file been lengthened, and has
      the process read since then? */
  ghost predicate Passive(t: Site<Source>, n: nat, longer: bool, read: bool) {
    && SiteOk(t) && n <= t.offset
    && (n < |t.file| <==> longer)
    && (n < |t.file| ==> Newer(t.file[|t.file| - 1], 0))
    && (if read then HasNewer(t.copy, 0) else t.offset == n && t.copy == Padded(Nowhere, OldFile(n)))
  }

  lemma PassiveWrite(t: Site<Source>, n: nat, longer: bool, read: bool, slot: SlotNumber, s: Source)
    requires Passive(t, n, longer, read) && Newer(s, 0)
    ensures Passive(React(Nowhere, t, Foreign(slot, s)), n, longer || slot >= n, read)
  {
    PaddedWrite(Nowhere, t.file, slot, s);
  }

  lemma PassiveTop(t: Site<Source>, n: nat, longer: bool, read: bool)
    requires Passive(t, n, longer, read)
    ensures Passive(React(Nowhere, t, Top), n, longer, read || longer)
  {
    TopAt(Nowhere, t);
    var u := React(Nowhere, t, Top);
    if t.offset < |t.file| {
      assert u.copy[|t.file| - t.offset - 1] == t.file[|t.file| - 1];
    } else {
      assert u.copy == t.copy;
    }
  }

  lemma {:induction false} PassiveTrace<T>(n: nat, es: seq<Event<T>>, k: nat)
    requires n <= RECORD_NUM && NeverPosts(es) && k <= |es|
    ensures Passive(At(n, es, k), n, Longer(n, es, k), LongerRead(n, es, k))
    decreases k
  {
    if k > 0 {
      PassiveTrace(n, es, k - 1);
      PassiveNext(n, es, k, Longer(n, es, k - 1), LongerRead(n, es, k - 1));
    }
  }

  lemma PassiveNext<T>(n: nat, es: seq<Event<T>>, k: nat, longer: bool, read: bool)
    requires n <= RECORD_NUM && 0 < k <= |es| && !es[k - 1].Own? && Passive(At(n, es, k - 1), n, longer, read)
    ensures Passive(At(n, es, k), n, longer || Lengthens(n, es[k - 1]), read || (longer && es[k - 1].Top?))
  {
    PassiveStep(At(n, es, k - 1), At(n, es, k), WithRecord(es[k - 1], Written(k - 1)), n, longer, read);
  }

  lemma PassiveStep(t: Site<Source>, u: Site<Source>, e: Event<Source>, n: nat, longer: bool, read: bool)
    requires Passive(t, n, longer, read) && !e.Own? && (IsWrite(e) ==> Newer(e.r, 0))
    requires u == React(Nowhere, t, e)
    ensures Passive(u, n, longer || Lengthens(n, e), read || (longer && e.Top?))
  {
    match e
    case Top => PassiveTop(t, n, longer, read);
    case Foreign(slot, s) => PassiveWrite(t, n, longer, read, slot, s);
    case Asked(_) =>
  }

  /** A process that never posts shows the board it found at its first read,
      whatever is written, exactly unless the file is lengthened and then read. */
  lemma NeverRereadsIff(n: nat, es: seq<Event<Record>>)
    requires n <= RECORD_NUM && NeverPosts(es)
    ensures AlwaysSnapshot(n, es, 0) <==> !LengthenedAndRead(n, es)
  {
    PassiveTrace(n, es, |es|);
    LongerReadIff(n, es, |es|);
    AtEnds(n, es);
    if LengthenedAndRead(n, es) {
      var i :| 0 <= i < RECORD_NUM && Newer(Trace(n, es).copy[i], 0);
      var c := NewerShows(n, es, 0, i);
    } else {
      forall c: Contents | |c.file| == n && SameShape(es, c.es)
        ensures After(EMPTY, c.file, c.es).copy == SlotsOf(After(EMPTY, c.file, c.es[..0]))
      {
        SameAt(n, es, c.es, 0);
        SnapshotFilled(c, 0);
      }
    }
  }

  // --------------------------------------------------------------- unread writes

  /** Event `k` writes a slot outside `locked`. */
  predicate WritesAt<T>(es: seq<Event<T>>, k: nat, locked: set<int>)
    requires k < |es|
  {
    IsWrite(es[k]) && es[k].slot !in locked
  }

  /** Since the last read from the start no slot outside `locked` was written. */
  ghost predicate NothingUnread<T>(n: nat, es: seq<Event<T>>, locked: set<int>)
    requires n <= RECORD_NUM
  {
    forall k :: LastRead(n, es) <= k < |es| ==> !WritesAt(es, k, locked)
  }

  ghost predicate Agree(a: seq<Source>, b: seq<Source>, locked: set<int>) {
    |a| == |b| && forall j :: 0 <= j < |a| && j !in locked ==> a[j] == b[j]
  }

  lemma {:induction false} ListedAgree(a: seq<Source>, b: seq<Source>, locked: set<int>)
    requires Agree(a, b, locked)
    ensures Listed(a, locked) == Listed(b, locked)
  {
    if a != [] { ListedAgree(a[..|a| - 1], b[..|b| - 1], locked); }
  }

  lemma WriteSlots<T>(n: nat, es: seq<Event<T>>, k: nat)
    requires n <= RECORD_NUM && k < |es|
    ensures SlotsAt(n, es, k + 1) ==
            if IsWrite(es[k]) then SlotsAt(n, es, k)[es[k].slot := Written(k)]
            else SlotsAt(n, es, k)
  {
    if IsWrite(es[k]) { WriteLands(Nowhere, At(n, es, k), WithRecord(es[k], Written(k))); }
  }

  lemma {:induction false} Unwritten<T>(n: nat, es: seq<Event<T>>, m: nat, k: nat, locked: set<int>)
    requires n <= RECORD_NUM && m <= k <= |es|
    requires forall j :: m <= j < k ==> !WritesAt(es, j, locked)
    ensures Agree(SlotsAt(n, es, m), SlotsAt(n, es, k), locked)
    decreases k
  {
    if m < k {
      Unwritten(n, es, m, k - 1, locked);
      WriteSlots(n, es, k - 1);
      assert !WritesAt(es, k - 1, locked);
    }
  }

  lemma {:induction false} LastWrite<T>(es: seq<Event<T>>, m: nat, k: nat, locked: set<int>) returns (w: nat)
    requires m <= k <= |es| && exists j :: m <= j < k && WritesAt(es, j, locked)
    ensures m <= w < k && WritesAt(es, w, locked)
    ensures forall j :: w < j < k ==> !WritesAt(es, j, locked)
    decreases k
  {
    w := k - 1;
    if !WritesAt(es, w, locked) { w := LastWrite(es, m, k - 1, locked); }
  }

  lemma WriteIsListed<T>(n: nat, es: seq<Event<T>>, w: nat, locked: set<int>)
    requires n <= RECORD_NUM && w < |es| && WritesAt(es, w, locked)
    requires forall j :: w < j < |es| ==> !WritesAt(es, j, locked)
    ensures Written(w) in Listed(SlotsAt(n, es, |es|), locked)
  {
    var slot := es[w].slot;
    WriteSlots(n, es, w);
    Unwritten(n, es, w + 1, |es|, locked);
    assert SlotsAt(n, es, |es|)[slot] == Written(w);
    ListedFrom(SlotsAt(n, es, |es|), locked, Written(w));
  }

  lemma NotListedYet<T>(n: nat, es: seq<Event<T>>, m: nat, w: nat, locked: set<int>)
    requires n <= RECORD_NUM && m <= w < |es|
    ensures Written(w) !in Listed(SlotsAt(n, es, m), locked)
  {
    TraceKnown(n, es[..m]);
    AtIsTrace(n, es, m);
    ListedKnown(n, es[..m], SlotsAt(n, es, m), locked);
    assert !Known(n, es[..m], Written(w));
  }

  /** If the copy is a snapshot, an unlocked write after it is a source it lacks. */
  lemma UnreadDiffers<T>(n: nat, es: seq<Event<T>>, m: nat, locked: set<int>)
    requires n <= RECORD_NUM && m <= |es| && exists j :: m <= j < |es| && WritesAt(es, j, locked)
    ensures Listed(SlotsAt(n, es, m), locked) != Listed(SlotsAt(n, es, |es|), locked)
  {
    var w := LastWrite(es, m, |es|, locked);
    WriteIsListed(n, es, w, locked);
    NotListedYet(n, es, m, w, locked);
  }

  /** Where no read has started in the middle, a pull is answered as from the
      current board, whatever was written, exactly when since the last read from
      the start nobody wrote a slot that is not locked now. */
  lemma UnshiftedCurrentIff(n: nat, es: seq<Event<Record>>, locked: set<int>)
    requires n <= RECORD_NUM && NoShift(n, es)
    ensures AlwaysCurrent(n, es, locked) <==> NothingUnread(n, es, locked)
  {
    var m := LastRead(n, es);
    PullCurrentIff(n, es, locked);
    ShiftedIff(n, es, |es|);
    SnapshotTrace(n, es, |es|);
    AtEnds(n, es);
    if NothingUnread(n, es, locked) {
      Unwritten(n, es, m, |es|, locked);
      ListedAgree(SlotsAt(n, es, m), SlotsAt(n, es, |es|), locked);
    } else {
      UnreadDiffers(n, es, m, locked);
    }
  }

  /** The premise is needed: on a board of one record, with a second one written
      and locked by another process, nothing unlocked is unread, and yet a pull
      after the next read shows the second record instead of the first. */
  lemma ShiftedPull(a: Record, b: Record)
    requires Shown(a) && Shown(b)
    ensures var es, s := [Foreign(1, b), Top], After(EMPTY, [a], [Foreign(1, b), Top]);
            && Shifts(1, es, 1) && NothingUnread(1, es, {1})
            && Visible(s.copy, {1}) == [b] && Visible(SlotsOf(s), {1}) == [a]
  {
    var es: seq<Event<Record>> := [Foreign(1, b), Top];
    ShiftedRead(a, b);
    assert At(1, es, 0).offset == 1;
    assert At(1, es, 1).offset == 1 && |At(1, es, 1).file| == 2;
  }
}
