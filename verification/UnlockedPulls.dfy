/** Pulls while no slot is locked: reads from the middle of the file always show,
    so the answer is current exactly when nothing at all was written since the
    last read from the start. */
module UnlockedPulls {
  import opened BulletinBoard
  import opened MemoryCopy
  import opened CopyTrace
  import opened StalePulls

  /** The slots the events write, -1 for the others. */
  function Homes<T>(es: seq<Event<T>>): (homes: seq<int>)
    ensures |homes| == |es|
  {
    seq(|es|, k requires 0 <= k < |es| => if IsWrite(es[k]) then es[k].slot else -1)
  }

  /** The slot of the file a source belongs to. */
  function Home(homes: seq<int>, s: Source): int {
    match s
    case Nowhere => -1
    case Old(j) => j
    case Written(k) => if k < |homes| then homes[k] else -1
  }

  ghost predicate AtHome(homes: seq<int>, slots: seq<Source>) {
    forall j :: 0 <= j < |slots| && slots[j] != Nowhere ==> Home(homes, slots[j]) == j
  }

  lemma {:induction false} SlotsAtHome<T>(n: nat, es: seq<Event<T>>, k: nat)
    requires n <= RECORD_NUM && k <= |es|
    ensures AtHome(Homes(es), SlotsAt(n, es, k))
    decreases k
  {
    if k > 0 {
      SlotsAtHome(n, es, k - 1);
      WriteSlots(n, es, k - 1);
    }
  }

  lemma FileAtHome<T>(n: nat, es: seq<Event<T>>, k: nat)
    requires n <= RECORD_NUM && k <= |es|
    ensures AtHome(Homes(es), At(n, es, k).file)
  {
    SlotsAtHome(n, es, k);
    var file := At(n, es, k).file;
    assert forall j :: 0 <= j < |file| ==> file[j] == SlotsAt(n, es, k)[j];
  }

  // --------------------------------------------------------- records that stay

  predicate LastHeld(file: seq<Source>) {
    file != [] ==> file[|file| - 1] != Nowhere
  }

  lemma LastHeldWrite(file: seq<Source>, j: nat, s: Source)
    requires LastHeld(file) && s != Nowhere
    ensures LastHeld(WriteAt(Nowhere, file, j, s))
  {
  }

  lemma {:induction false} LastHolds<T>(n: nat, es: seq<Event<T>>, k: nat)
    requires n <= RECORD_NUM && k <= |es|
    ensures LastHeld(At(n, es, k).file)
    decreases k
  {
    if k > 0 {
      LastHolds(n, es, k - 1);
      HeldReact(At(n, es, k - 1), At(n, es, k), WithRecord(es[k - 1], Written(k - 1)));
    }
  }

  lemma HeldReact(t: Site<Source>, u: Site<Source>, e: Event<Source>)
    requires SiteOk(t) && LastHeld(t.file) && (IsWrite(e) ==> e.r != Nowhere) && u == React(Nowhere, t, e)
    ensures LastHeld(u.file)
  {
    if IsWrite(e) { LastHeldWrite(t.file, e.slot, e.r); }
  }

  lemma HeldStep<T>(n: nat, es: seq<Event<T>>, k: nat, j: nat)
    requires n <= RECORD_NUM && k < |es| && j < RECORD_NUM && SlotsAt(n, es, k)[j] != Nowhere
    ensures SlotsAt(n, es, k + 1)[j] != Nowhere
  {
    WriteSlots(n, es, k);
  }

  /** A slot that holds a record holds one ever after. */
  lemma {:induction false} StaysHeld<T>(n: nat, es: seq<Event<T>>, m: nat, k: nat, j: nat)
    requires n <= RECORD_NUM && m <= k <= |es| && j < RECORD_NUM && SlotsAt(n, es, m)[j] != Nowhere
    ensures SlotsAt(n, es, k)[j] != Nowhere
    decreases k
  {
    if m < k {
      StaysHeld(n, es, m, k - 1, j);
      HeldStep(n, es, k - 1, j);
    }
  }

  // ------------------------------------------------------- a read from the middle

  /** A source from beyond the first `length` slots of the file. */
  predicate Beyond(homes: seq<int>, s: Source, length: nat) {
    s != Nowhere && Home(homes, s) >= length
  }

  ghost predicate BeyondEarly(homes: seq<int>, copy: seq<Source>, length: nat) {
    exists i :: 0 <= i < length - 1 && i < |copy| && Beyond(homes, copy[i], length)
  }

  /** The copy is out of order: something from beyond the old end stands before
      the old last record, or that record is not in its place. */
  ghost predicate Mixed(homes: seq<int>, copy: seq<Source>, length: nat)
    requires RECORD_NUM == |copy|
  {
    0 < length <= RECORD_NUM &&
    (BeyondEarly(homes, copy, length) || Home(homes, copy[length - 1]) != length - 1)
  }

  ghost predicate InPlaceOrBeyond(homes: seq<int>, copy: seq<Source>, length: nat) {
    forall i :: 0 <= i < |copy| && copy[i] != Nowhere ==>
      Home(homes, copy[i]) == i || Beyond(homes, copy[i], length)
  }

  lemma TopMixes(homes: seq<int>, t: Site<Source>, length: nat)
    requires SiteOk(t) && length <= t.offset
    requires InPlaceOrBeyond(homes, t.copy, length) && AtHome(homes, t.file)
    ensures InPlaceOrBeyond(homes, React(Nowhere, t, Top).copy, length)
    ensures 0 < length && t.offset < |t.file| && t.file[|t.file| - 1] != Nowhere ==>
              Mixed(homes, React(Nowhere, t, Top).copy, length)
  {
    var u := React(Nowhere, t, Top);
    TopAt(Nowhere, t);
    if 0 < length && t.offset < |t.file| && t.file[|t.file| - 1] != Nowhere {
      var q := |t.file| - t.offset - 1;
      assert u.copy[q] == t.file[|t.file| - 1];
      if q < length - 1 {
        assert Beyond(homes, u.copy[q], length);
      } else {
        assert u.copy[length - 1] == t.file[t.offset + length - 1];
      }
    }
  }

  /** What holds of a process since its last read from the start, when the file
      had `length` records; `shifted` if it has read from the middle since. */
  ghost predicate SinceFull(homes: seq<int>, t: Site<Source>, length: nat, shifted: bool) {
    && SiteOk(t)
    && InPlaceOrBeyond(homes, t.copy, length)
    && (length == 0 ==> t.offset == 0)
    && (shifted ==> Mixed(homes, t.copy, length))
  }

  lemma SinceFullStep(homes: seq<int>, t: Site<Source>, u: Site<Source>, e: Event<Source>, length: nat, shifted: bool)
    requires SinceFull(homes, t, length, shifted) && !(e.Top? && t.offset == 0)
    requires (t.offset == 0 || length <= t.offset) && AtHome(homes, t.file) && LastHeld(t.file)
    requires u == React(Nowhere, t, e)
    ensures SinceFull(homes, u, length, shifted || (e.Top? && t.offset < |t.file|))
  {
    if e.Top? {
      TopMixes(homes, t, length);
      assert t.offset == |t.file| ==> u.copy == t.copy;
    }
  }

  /** The copy after `k` of the events, seen from all of them. */
  ghost predicate ReadState<T>(n: nat, es: seq<Event<T>>, k: nat, m: nat, shifted: bool)
    requires n <= RECORD_NUM && k <= |es| && m <= |es|
  {
    SinceFull(Homes(es), At(n, es, k), |At(n, es, m).file|, shifted)
  }

  lemma JustRead<T>(n: nat, es: seq<Event<T>>, k: nat)
    requires n <= RECORD_NUM && k <= |es| && ReadBefore(n, es, k) == k
    ensures ReadState(n, es, k, k, false)
  {
    FullReadAt(n, es, k);
    SlotsAtHome(n, es, k);
  }

  lemma ReadPast<T>(n: nat, es: seq<Event<T>>, k: nat, m: nat)
    requires n <= RECORD_NUM && k <= |es| && m == ReadBefore(n, es, k)
    ensures At(n, es, k).offset == 0 || |At(n, es, m).file| <= At(n, es, k).offset
    ensures AtHome(Homes(es), At(n, es, k).file) && LastHeld(At(n, es, k).file)
  {
    SinceRead(n, es, k);
    FileAtHome(n, es, k);
    LastHolds(n, es, k);
  }

  lemma ReadStateStep<T>(n: nat, es: seq<Event<T>>, k: nat, m: nat, shifted: bool)
    requires n <= RECORD_NUM && 0 < k <= |es| && m == ReadBefore(n, es, k - 1) == ReadBefore(n, es, k)
    requires ReadState(n, es, k - 1, m, shifted)
    ensures ReadState(n, es, k, m, shifted || Shifts(n, es, k - 1))
  {
    var t, u, e := At(n, es, k - 1), At(n, es, k), WithRecord(es[k - 1], Written(k - 1));
    ReadPast(n, es, k - 1, m);
    SinceFullStep(Homes(es), t, u, e, |At(n, es, m).file|, shifted);
  }

  lemma {:induction false} SinceReadMixed<T>(n: nat, es: seq<Event<T>>, k: nat)
    requires n <= RECORD_NUM && k <= |es|
    ensures ReadState(n, es, k, ReadBefore(n, es, k), Shifted(n, es, k))
    decreases k
  {
    var m := ReadBefore(n, es, k);
    if m == k {
      JustRead(n, es, k);
    } else {
      SinceReadMixed(n, es, k - 1);
      ReadStateStep(n, es, k, m, Shifted(n, es, k - 1));
    }
  }

  // ------------------------------------------------------------------- two orders

  lemma {:induction false} ListedOrder(slots: seq<Source>, i: nat, j: nat) returns (a: nat, b: nat)
    requires i < j < |slots| && slots[i] != Nowhere && slots[j] != Nowhere
    ensures a < b < |Listed(slots, {})| && Listed(slots, {})[a] == slots[i] && Listed(slots, {})[b] == slots[j]
  {
    var n := |slots| - 1;
    if j < n {
      a, b := ListedOrder(slots[..n], i, j);
    } else {
      ListedFrom(slots[..n], {}, slots[i]);
      assert slots[..n][i] == slots[i];
      a :| 0 <= a < |Listed(slots[..n], {})| && Listed(slots[..n], {})[a] == slots[i];
      b := |Listed(slots[..n], {})|;
    }
  }

  ghost predicate Increasing(homes: seq<int>, r: seq<Source>, bound: int) {
    && (forall a :: 0 <= a < |r| ==> Home(homes, r[a]) < bound)
    && (forall a, b :: 0 <= a < b < |r| ==> Home(homes, r[a]) < Home(homes, r[b]))
  }

  lemma IncreasingSnoc(homes: seq<int>, r: seq<Source>, s: Source)
    requires Increasing(homes, r, Home(homes, s))
    ensures Increasing(homes, r + [s], Home(homes, s) + 1)
  {
    forall a | 0 <= a < |r| ensures Home(homes, (r + [s])[a]) < Home(homes, s) {
      assert (r + [s])[a] == r[a];
    }
  }

  lemma {:induction false} ListedIncreases(homes: seq<int>, slots: seq<Source>)
    requires AtHome(homes, slots)
    ensures Increasing(homes, Listed(slots, {}), |slots|)
  {
    if slots != [] {
      var i := |slots| - 1;
      var prior := Listed(slots[..i], {});
      ListedIncreases(homes, slots[..i]);
      if slots[i] != Nowhere {
        IncreasingSnoc(homes, prior, slots[i]);
      } else {
        assert Listed(slots, {}) == prior;
      }
    }
  }

  /** After a read from the middle the unlocked copy is never in the order of the
      file. */
  lemma MixedDiffers(homes: seq<int>, copy: seq<Source>, slots: seq<Source>, length: nat)
    requires RECORD_NUM == |copy| == |slots| && AtHome(homes, slots)
    requires InPlaceOrBeyond(homes, copy, length) && Mixed(homes, copy, length) && slots[length - 1] != Nowhere
    ensures Listed(copy, {}) != Listed(slots, {})
  {
    var x := slots[length - 1];
    if Listed(copy, {}) == Listed(slots, {}) {
      ListedFrom(slots, {}, x);
      LastInPlace(homes, copy, x, length);
      var w :| 0 <= w < length - 1 && w < |copy| && Beyond(homes, copy[w], length);
      ListedIncreases(homes, slots);
      OutOfOrder(homes, copy, w, length - 1);
    }
  }

  lemma LastInPlace(homes: seq<int>, copy: seq<Source>, x: Source, length: nat)
    requires 0 < length <= |copy| && InPlaceOrBeyond(homes, copy, length)
    requires Home(homes, x) == length - 1 && x in Listed(copy, {})
    ensures copy[length - 1] == x
  {
    ListedFrom(copy, {}, x);
  }

  lemma OutOfOrder(homes: seq<int>, copy: seq<Source>, i: nat, j: nat)
    requires i < j < |copy| && copy[i] != Nowhere && copy[j] != Nowhere
    requires Home(homes, copy[i]) > Home(homes, copy[j])
    ensures !Increasing(homes, Listed(copy, {}), RECORD_NUM)
  {
    var a, b := ListedOrder(copy, i, j);
    assert Home(homes, Listed(copy, {})[a]) > Home(homes, Listed(copy, {})[b]);
  }

  lemma ShiftDiffers<T>(n: nat, es: seq<Event<T>>)
    requires n <= RECORD_NUM && !NoShift(n, es)
    ensures !SameSources(n, es, {})
  {
    var m := LastRead(n, es);
    var length := |At(n, es, m).file|;
    AtEnds(n, es);
    ShiftedIff(n, es, |es|);
    SinceReadMixed(n, es, |es|);
    LastHolds(n, es, m);
    assert SlotsAt(n, es, m)[length - 1] == At(n, es, m).file[length - 1];
    StaysHeld(n, es, m, |es|, length - 1);
    SlotsAtHome(n, es, |es|);
    MixedDiffers(Homes(es), At(n, es, |es|).copy, SlotsAt(n, es, |es|), length);
  }

  /** Whatever the records, a pull while no slot is locked is answered as from the
      current board exactly when no process has written since the last read from
      the start of the file. */
  lemma UnlockedCurrentIff(n: nat, es: seq<Event<Record>>)
    requires n <= RECORD_NUM
    ensures AlwaysCurrent(n, es, {}) <==> forall k :: LastRead(n, es) <= k < |es| ==> !IsWrite(es[k])
  {
    assert forall k :: 0 <= k < |es| ==> WritesAt(es, k, {}) == IsWrite(es[k]);
    if NoShift(n, es) {
      UnshiftedCurrentIff(n, es, {});
      if NothingUnread(n, es, {}) {
        forall k | LastRead(n, es) <= k < |es| ensures !IsWrite(es[k]) {
          assert !WritesAt(es, k, {});
        }
      }
    } else {
      PullCurrentIff(n, es, {});
      ShiftDiffers(n, es);
      if forall k :: LastRead(n, es) <= k < |es| ==> !IsWrite(es[k]) { QuietNoShift(n, es, |es|); }
    }
  }

  /** Without writes the file does not grow. */
  lemma {:induction false} QuietNoShift<T>(n: nat, es: seq<Event<T>>, k: nat)
    requires n <= RECORD_NUM && LastRead(n, es) <= k <= |es|
    requires forall j :: LastRead(n, es) <= j < |es| ==> !IsWrite(es[j])
    ensures At(n, es, k).offset == |At(n, es, k).file|
    ensures forall j :: LastRead(n, es) <= j < k ==> !Shifts(n, es, j)
    decreases k
  {
    var m := LastRead(n, es);
    if k == m {
      ReadThen(n, es, |es|);
      FullReadAt(n, es, m);
    } else {
      QuietNoShift(n, es, k - 1);
    }
  }

  lemma {:induction false} ReadThen<T>(n: nat, es: seq<Event<T>>, k: nat)
    requires n <= RECORD_NUM && k <= |es|
    ensures ReadBefore(n, es, ReadBefore(n, es, k)) == ReadBefore(n, es, k)
    decreases k
  {
    if ReadBefore(n, es, k) < k { ReadThen(n, es, k - 1); }
  }
}
